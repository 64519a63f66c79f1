/** Mustache contexts: the values a template is rendered with, name look-up in the context stack,
    and escaping. */
module MustacheContexts {

  /** A context without lambdas; a number carries the text its `dump` prints. */
  datatype Value =
    | Null
    | False
    | True
    | Number(text: string)
    | String(s: string)
    | List(items: seq<Value>)
    | Object(fields: map<string, Value>)

  datatype Lookup = NotFound | Found(value: Value)

  /** The parts of a name between dots. */
  function SplitName(name: string, from: nat, at: nat): seq<string>
    requires from <= at <= |name|
    decreases |name| - at
  {
    if at == |name| then [name[from..]]
    else if name[at] == '.' then [name[from..at]] + SplitName(name, at + 1, at + 1)
    else SplitName(name, from, at + 1)
  }

  /** Follows the parts of a dotted name from one stack entry. */
  function Follow(view: Value, names: seq<string>): Lookup {
    if names == [] then Found(view)
    else if view.Object? && names[0] in view.fields then Follow(view.fields[names[0]], names[1..])
    else NotFound
  }

  function FindPlain(name: string, stack: seq<Value>): Lookup {
    if stack == [] then NotFound
    else
      var top := stack[|stack| - 1];
      if top.Object? && name in top.fields then Found(top.fields[name])
      else FindPlain(name, stack[..|stack| - 1])
  }

  function FindDotted(names: seq<string>, stack: seq<Value>, onlyTop: bool): Lookup {
    if stack == [] then NotFound
    else
      var r := Follow(stack[|stack| - 1], names);
      if r.Found? || onlyTop then r else FindDotted(names, stack[..|stack| - 1], onlyTop)
  }

  predicate Dotted(name: string) { name != "." && '.' in name }

  /** `find_context` */
  function FindContext(name: string, stack: seq<Value>, onlyTop: bool): Lookup
    requires stack != []
  {
    if name == "." then Found(stack[|stack| - 1])
    else if '.' !in name then FindPlain(name, stack)
    else FindDotted(SplitName(name, 0, 0), stack, onlyTop)
  }

  /** A plain name means the innermost object that has it. */
  lemma {:induction false} InnermostWins(name: string, stack: seq<Value>)
    ensures
      match FindPlain(name, stack)
      case NotFound => forall i :: 0 <= i < |stack| ==> !(stack[i].Object? && name in stack[i].fields)
      case Found(v) =>
        exists i :: 0 <= i < |stack| && stack[i].Object? && name in stack[i].fields && v == stack[i].fields[name] &&
          forall j :: i < j < |stack| ==> !(stack[j].Object? && name in stack[j].fields)
  {
    if stack != [] {
      var n := |stack| - 1;
      if stack[n].Object? && name in stack[n].fields {
        assert stack[n].fields[name] == FindPlain(name, stack).value;
      } else {
        InnermostWins(name, stack[..n]);
        if FindPlain(name, stack).Found? {
          var i :| 0 <= i < n && stack[..n][i].Object? && name in stack[..n][i].fields &&
            FindPlain(name, stack).value == stack[..n][i].fields[name] &&
            forall j :: i < j < n ==> !(stack[..n][j].Object? && name in stack[..n][j].fields);
          forall j | i < j < |stack|
            ensures !(stack[j].Object? && name in stack[j].fields)
          {
            if j < n { assert stack[..n][j] == stack[j]; }
          }
          assert stack[i] == stack[..n][i];
        } else {
          forall i | 0 <= i < |stack|
            ensures !(stack[i].Object? && name in stack[i].fields)
          {
            if i < n { assert stack[..n][i] == stack[i]; }
          }
        }
      }
    }
  }

  function EscapeChar(c: char): string {
    match c
    case '&' => "&amp;"
    case '<' => "&lt;"
    case '>' => "&gt;"
    case '\"' => "&quot;"
    case '\'' => "&#39;"
    case '/' => "&#x2F;"
    case '`' => "&#x60;"
    case '=' => "&#x3D;"
    case _ => [c]
  }

  function Escaped(s: string): string {
    if s == "" then "" else Escaped(s[..|s| - 1]) + EscapeChar(s[|s| - 1])
  }

  /** `escape` */
  method Escape(s: string) returns (out: string)
    ensures out == Escaped(s)
  {
    out := "";
    for i := 0 to |s|
      invariant out == Escaped(s[..i])
    {
      assert s[..i + 1][..i] == s[..i];
      out := out + EscapeChar(s[i]);
    }
    assert s[..|s|] == s;
  }

  /** Nothing that could open a tag or end an attribute survives escaping. */
  lemma {:induction false} EscapedIsInert(s: string)
    ensures forall c :: c in Escaped(s) ==> c !in "<>\"'/`="
  {
    if s != "" {
      EscapedIsInert(s[..|s| - 1]);
      InertChar(s[|s| - 1]);
    }
  }

  lemma InertChar(c: char)
    ensures forall x :: x in EscapeChar(c) ==> x !in "<>\"'/`="
  {
    match c {
      case '&' => case '<' => case '>' => case '\"' => case '\'' => case '/' => case '`' => case '=' =>
      case _ =>
    }
  }
}
