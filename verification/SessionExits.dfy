/** Exits that do not match entries. A connection keeps the context of its last request: a request for
    which nothing is found runs the after-handlers on it once more. And a request that is handed over to an
    upgraded connection never runs them. */
module SessionExits {
  import opened Sessions

  /** The contexts that requests have left behind, and the sessions only these still point to. */
  datatype Wide = Wide(s: State, left: map<Request, Holding>, gone: map<Ref, Node>)

  /** `Again`: after-handlers on the context `r` has left. `Vanish`: `r` is handed over. */
  datatype WideStep = Plain(step: Step) | Again(r: Request) | Vanish(r: Request)

  predicate Known(w: Wide, h: Holding) { h.Holds? ==> h.ref in w.s.nodes || h.ref in w.gone }

  function NodeAt(w: Wide, ref: Ref): Node
    requires Known(w, Holds(ref))
  {
    if ref in w.s.nodes then w.s.nodes[ref] else w.gone[ref]
  }

  function Put(w: Wide, ref: Ref, n: Node): Wide {
    if ref in w.s.nodes then w.(s := w.s.(nodes := w.s.nodes[ref := n])) else w.(gone := w.gone[ref := n])
  }

  /** `after_handle` on any context, in any state. Saving moves the entries out of the session. */
  function Leave(w: Wide, h: Holding, generated: string): Wide
    requires Known(w, h)
  {
    match h
    case Nothing => w
    case Holds(ref) =>
      var n := NodeAt(w, ref).(referrers := NodeAt(w, ref).referrers - 1);
      if n.referrers > 0 then Put(w, ref, n)
      else
        var id := if n.sessionId == "" then generated else n.sessionId;
        var saved := n.(sessionId := id, requestedRefresh := n.requestedRefresh || n.sessionId == "", entries := map[]);
        var t := w.s.(cache := if n.sessionId == "" then w.s.cache else w.s.cache - {id},
                      store := w.s.store[id := n.entries],
                      history := w.s.history + [Save(id)]);
        Put(w.(s := t), ref, saved)
  }

  /** The exit of a request in flight; its context stays behind. */
  function Exit(w: Wide, r: Request, generated: string): Wide
    requires r in w.s.held && Known(w, w.s.held[r])
  {
    var h := w.s.held[r];
    var t := Leave(w, h, generated);
    var s := t.s.(held := t.s.held - {r});
    if h.Holds? && h.ref in s.nodes && Holders(s, h.ref) == {} then
      Wide(s.(nodes := s.nodes - {h.ref}, loaded := s.loaded - {h.ref}), t.left[r := h], t.gone[h.ref := s.nodes[h.ref]])
    else Wide(s, t.left[r := h], t.gone)
  }

  /** A request disappears with its context; a session of its own disappears with it. */
  function Vanished(w: Wide, r: Request): Wide
    requires r in w.s.held
  {
    var s := w.s.(held := w.s.held - {r});
    if w.s.held[r].Holds? && w.s.held[r].ref in s.nodes && s.nodes[w.s.held[r].ref].sessionId == "" then
      w.(s := s.(nodes := s.nodes - {w.s.held[r].ref}, loaded := s.loaded - {w.s.held[r].ref}))
    else w.(s := s)
  }

  predicate WideEnabled(w: Wide, step: WideStep) {
    match step
    case Plain(p) => Enabled(w.s, p) && (p.Before? ==> p.r !in w.left)
    case Again(r) => r in w.left
    case Vanish(r) => r in w.s.held
  }

  /** What is left behind is known, and was saved when its last holder left. */
  ghost predicate LeftGood(w: Wide) {
    && (forall r :: r in w.left && w.left[r].Holds? ==>
          w.left[r].ref in w.gone || (w.left[r].ref in w.s.nodes && w.s.nodes[w.left[r].ref].sessionId != ""))
    && (forall ref :: ref in w.gone ==> GoneGood(w.s, ref, w.gone[ref]))
  }

  ghost predicate GoneGood(s: State, ref: Ref, n: Node) {
    && ref !in s.nodes && ref < s.next && n.sessionId != "" && n.referrers <= 0
    && !LastOf(s.history, n.sessionId).Never?
  }

  ghost predicate WideGood(w: Wide) { Good(w.s) && LeftGood(w) }

  function WideNext(w: Wide, step: WideStep): Wide
    requires WideGood(w) && WideEnabled(w, step)
  {
    match step
    case Plain(p) => (if p.After? then (HeldKnown(w, p.r); Exit(w, p.r, p.generated)) else w.(s := Next(w.s, p)))
    case Again(r) => Leave(w, w.left[r], "")
    case Vanish(r) => Vanished(w, r)
  }

  lemma HeldKnown(w: Wide, r: Request)
    requires Good(w.s) && r in w.s.held
    ensures Known(w, w.s.held[r])
  {
  }

  /** The steps that find no session in a context they should not touch. */
  predicate Harmless(w: Wide, step: WideStep)
    requires WideEnabled(w, step)
  {
    match step
    case Plain(_) => true
    case Again(r) => w.left[r].Nothing?
    case Vanish(r) => w.s.held[r].Nothing? || (w.s.held[r].ref in w.s.nodes && w.s.nodes[w.s.held[r].ref].sessionId == "")
  }

  // ---------------------------------------------------------------- ordinary steps

  /** A holder leaves and others stay. */
  lemma {:induction false} ExitShared(w: Wide, r: Request, generated: string)
    requires r in w.s.held && w.s.held[r].Holds? && w.s.held[r].ref in w.s.nodes
    requires w.s.nodes[w.s.held[r].ref].referrers > 1
    requires Holders(w.s.(held := w.s.held - {r}), w.s.held[r].ref) != {}
    ensures
      var s, h := w.s, w.s.held[r];
      var n := s.nodes[h.ref];
      Exit(w, r, generated) ==
      Wide(s.(nodes := s.nodes[h.ref := n.(referrers := n.referrers - 1)], held := s.held - {r}), w.left[r := h], w.gone)
  {
    var s, ref := w.s, w.s.held[r].ref;
    var t := Leave(w, s.held[r], generated).s;
    SameHeld(t.(held := t.held - {r}), s.(held := s.held - {r}), ref);
    hide Holders;
  }

  lemma SameHeld(s: State, t: State, ref: Ref)
    requires s.held == t.held
    ensures Holders(s, ref) == Holders(t, ref)
  {
  }

  /** The last holder leaves. */
  lemma {:induction false} ExitLast(w: Wide, r: Request, generated: string)
    requires r in w.s.held && w.s.held[r].Holds? && w.s.held[r].ref in w.s.nodes
    requires w.s.nodes[w.s.held[r].ref].referrers <= 1
    requires Holders(w.s.(held := w.s.held - {r}), w.s.held[r].ref) == {}
    ensures
      var s, h := w.s, w.s.held[r];
      var n := s.nodes[h.ref];
      var id := if n.sessionId == "" then generated else n.sessionId;
      var t := Exit(w, r, generated);
      && t.s == s.(nodes := s.nodes - {h.ref}, loaded := s.loaded - {h.ref},
                   cache := if n.sessionId == "" then s.cache else s.cache - {id}, store := s.store[id := n.entries],
                   held := s.held - {r}, history := s.history + [Save(id)])
      && t.left == w.left[r := h]
      && t.gone == w.gone[h.ref := t.gone[h.ref]]
      && t.gone[h.ref].sessionId == id && t.gone[h.ref].referrers == n.referrers - 1
  {
    var s, ref := w.s, w.s.held[r].ref;
    var t := Leave(w, s.held[r], generated).s;
    SameHeld(t.(held := t.held - {r}), s.(held := s.held - {r}), ref);
    hide Holders;
    assert t.nodes - {ref} == s.nodes - {ref};
  }

  /** The exit of a request in flight is the exit of the state machine. */
  lemma {:induction false} ExitIsAfter(w: Wide, r: Request, generated: string)
    requires Good(w.s) && Enabled(w.s, After(r, generated))
    ensures Known(w, w.s.held[r]) && Exit(w, r, generated).s == Next(w.s, After(r, generated))
  {
    HeldKnown(w, r);
    if w.s.held[r].Nothing? {
      hide Good, Holders;
    } else {
      HeldIsCounted(w.s, r);
      ExitHolders(w.s, r);
      hide Good, Holders, Exit, Next;
      if w.s.nodes[w.s.held[r].ref].referrers > 1 {
        ExitShared(w, r, generated);
        AfterShared(w.s, r, generated);
      } else {
        ExitLast(w, r, generated);
        AfterLast(w.s, r, generated);
      }
    }
  }

  lemma {:induction false} AfterShared(s: State, r: Request, generated: string)
    requires Good(s) && Enabled(s, After(r, generated)) && s.held[r].Holds? && s.held[r].ref in s.nodes
    requires s.nodes[s.held[r].ref].referrers > 1
    ensures var n := s.nodes[s.held[r].ref];
            Next(s, After(r, generated)) ==
            s.(nodes := s.nodes[s.held[r].ref := n.(referrers := n.referrers - 1)], held := s.held - {r})
  {
    hide Good;
  }

  lemma {:induction false} AfterLast(s: State, r: Request, generated: string)
    requires Good(s) && Enabled(s, After(r, generated)) && s.held[r].Holds? && s.held[r].ref in s.nodes
    requires s.nodes[s.held[r].ref].referrers <= 1
    ensures var n, ref := s.nodes[s.held[r].ref], s.held[r].ref;
            var id := if n.sessionId == "" then generated else n.sessionId;
            Next(s, After(r, generated)) ==
            s.(nodes := s.nodes - {ref}, loaded := s.loaded - {ref},
               cache := if n.sessionId == "" then s.cache else s.cache - {id}, store := s.store[id := n.entries],
               held := s.held - {r}, history := s.history + [Save(id)])
  {
    hide Good;
  }

  /** Nobody holds the session behind its last holder. */
  lemma {:induction false} ExitHolders(s: State, r: Request)
    requires Good(s) && r in s.held && s.held[r].Holds? && s.held[r].ref in s.nodes
    ensures Holders(s.(held := s.held - {r}), s.held[r].ref) == {} <==> s.nodes[s.held[r].ref].referrers <= 1
  {
    var ref := s.held[r].ref;
    assert NodeGood(s, ref);
    HolderRemoved(s, s.(held := s.held - {r}), r, ref);
    var h := Holders(s.(held := s.held - {r}), ref);
    hide Good, NodeGood, Holders;
    assert h == {} <==> |h| == 0;
  }

  /** What a step of a request in flight leaves as it is. */
  ghost predicate Grows(s: State, t: State) {
    && s.next <= t.next
    && (forall ref :: ref in t.nodes ==> ref in s.nodes || s.next <= ref)
    && (forall ref :: ref in s.nodes ==> ref in t.nodes && t.nodes[ref].sessionId == s.nodes[ref].sessionId)
    && (forall id :: !LastOf(s.history, id).Never? ==> !LastOf(t.history, id).Never?)
  }

  lemma NewGrows(s: State, t: State, n: Node)
    requires s.next !in s.nodes && t.next == s.next + 1 && t.nodes == s.nodes[s.next := n] && t.history == s.history
    ensures Grows(s, t)
  {
  }

  lemma EditGrows(s: State, t: State, ref: Ref, n: Node)
    requires ref in s.nodes && n.sessionId == s.nodes[ref].sessionId
    requires t.next == s.next && t.nodes == s.nodes[ref := n] && t.history == s.history
    ensures Grows(s, t)
  {
  }

  lemma GrowsOn(s: State, t: State, u: State)
    requires Grows(s, t) && Grows(t, u)
    ensures Grows(s, u)
  {
  }

  lemma {:induction false} LoadGrows(s: State, t: State, id: string)
    requires s.next !in s.nodes && t.next == s.next + 1 && t.history == s.history + [Load(id)]
    requires s.next in t.nodes && t.nodes == s.nodes[s.next := t.nodes[s.next]]
    ensures Grows(s, t)
  {
    AllLastAppended(s.history, Load(id));
    hide LastOf;
  }

  lemma {:induction false} CheckNodeGrows(s: State, r: Request)
    requires Good(s) && r in s.held
    ensures Grows(s, CheckNode(s, r))
  {
    GoodPointers(s);
    hide Good, LastOf;
    if s.held[r].Nothing? { NewGrows(s, CheckNode(s, r), Node("", map[], {}, false, 0)); }
  }

  lemma {:induction false} SetGrows(s: State, r: Request, key: string, value: MultiValue)
    requires Good(s) && r in s.held
    ensures Grows(s, Next(s, Set(r, key, value)))
  {
    var t := CheckNode(s, r);
    CheckNodeGood(s, r);
    CheckNodeGrows(s, r);
    var ref := t.held[r].ref;
    var n := t.nodes[ref];
    hide Good, CheckNode, Grows;
    EditGrows(t, Next(s, Set(r, key, value)), ref, n.(dirty := n.dirty + {key}, entries := n.entries[key := value]));
    GrowsOn(s, t, Next(s, Set(r, key, value)));
  }

  lemma {:induction false} BeforeGrows(s: State, r: Request, id: string)
    requires Good(s) && r !in s.held
    ensures Grows(s, Next(s, Before(r, id)))
  {
    FreshRef(s);
    var t := Next(s, Before(r, id));
    if id != "" && id in s.cache {
      CachedGrows(s, r, id);
    } else if id != "" && id in s.store {
      hide Good, Grows, LastOf, Holders;
      LoadGrows(s, t, id);
    } else {
      hide Good, LastOf, Holders;
    }
  }

  lemma {:induction false} CachedGrows(s: State, r: Request, id: string)
    requires Good(s) && r !in s.held && id != "" && id in s.cache
    ensures Grows(s, Next(s, Before(r, id)))
  {
    assert s.cache[id] in s.nodes;
    hide Good, Grows, LastOf;
    var n := s.nodes[s.cache[id]];
    EditGrows(s, Next(s, Before(r, id)), s.cache[id], n.(referrers := n.referrers + 1));
  }

  lemma {:induction false} StepGrows(s: State, step: Step)
    requires Good(s) && Enabled(s, step) && !step.After?
    ensures Grows(s, Next(s, step))
  {
    if (step.Remove? || step.Refresh?) && s.held[step.r].Holds? {
      HeldIsCounted(s, step.r);
      var ref := s.held[step.r].ref;
      var n := Next(s, step).nodes[ref];
      hide Good, Grows, LastOf;
      EditGrows(s, Next(s, step), ref, n);
    } else {
      match step {
        case Before(r, id) => BeforeGrows(s, r, id);
        case Set(r, key, value) => SetGrows(s, r, key, value);
        case _ =>
      }
    }
  }

  lemma {:induction false} GrowsLeft(w: Wide, t: State)
    requires LeftGood(w) && Grows(w.s, t)
    ensures LeftGood(w.(s := t))
  {
    hide LastOf;
    forall ref | ref in w.gone
      ensures GoneGood(t, ref, w.gone[ref])
    {
      assert GoneGood(w.s, ref, w.gone[ref]);
    }
  }

  lemma {:induction false} ExitLeft(w: Wide, r: Request, generated: string)
    requires WideGood(w) && Enabled(w.s, After(r, generated))
    ensures Known(w, w.s.held[r]) && LeftGood(Exit(w, r, generated))
  {
    HeldKnown(w, r);
    if w.s.held[r].Holds? {
      HeldIsCounted(w.s, r);
      hide Good, LeftGood, Exit;
      if w.s.nodes[w.s.held[r].ref].referrers > 1 {
        MoreLeft(w, r, generated);
      } else {
        LastLeft(w, r, generated);
      }
    } else {
      hide Good, LeftGood;
      SameGone(w, Exit(w, r, generated));
    }
  }

  lemma {:induction false} MoreLeft(w: Wide, r: Request, generated: string)
    requires WideGood(w) && r in w.s.held && w.s.held[r].Holds? && w.s.held[r].ref in w.s.nodes
    requires w.s.nodes[w.s.held[r].ref].referrers > 1
    ensures LeftGood(Exit(w, r, generated))
  {
    ExitHolders(w.s, r);
    CountedStored(w.s, w.s.held[r].ref);
    hide Good, Holders, Exit, LeftGood;
    ExitShared(w, r, generated);
    SameGone(w, Exit(w, r, generated));
  }

  lemma {:induction false} LastLeft(w: Wide, r: Request, generated: string)
    requires WideGood(w) && r in w.s.held && w.s.held[r].Holds? && w.s.held[r].ref in w.s.nodes
    requires w.s.nodes[w.s.held[r].ref].referrers <= 1 && generated != ""
    ensures LeftGood(Exit(w, r, generated))
  {
    var n := w.s.nodes[w.s.held[r].ref];
    ExitHolders(w.s, r);
    assert w.s.held[r].ref < w.s.next by { assert NodeGood(w.s, w.s.held[r].ref); }
    hide Good, Holders, Exit, LeftGood;
    ExitLast(w, r, generated);
    SavedGone(w, Exit(w, r, generated), w.s.held[r].ref, if n.sessionId == "" then generated else n.sessionId);
  }

  /** A counted session has an id. */
  lemma {:induction false} CountedStored(s: State, ref: Ref)
    requires Good(s) && ref in s.nodes && s.nodes[ref].referrers > 0
    ensures s.nodes[ref].sessionId != ""
  {
    assert NodeGood(s, ref);
    hide Holders, Recorded, Linked;
  }

  lemma {:induction false} SameGone(w: Wide, t: Wide)
    requires LeftGood(w) && t.gone == w.gone && t.s.history == w.s.history && t.s.next == w.s.next
    requires t.s.nodes.Keys == w.s.nodes.Keys && forall x :: x in t.s.nodes ==> t.s.nodes[x].sessionId == w.s.nodes[x].sessionId
    requires forall r :: r in t.left && t.left[r].Holds? ==>
               (r in w.left && w.left[r] == t.left[r]) ||
               (t.left[r].ref in t.s.nodes && t.s.nodes[t.left[r].ref].sessionId != "")
    ensures LeftGood(t)
  {
    hide LastOf;
    forall x | x in t.gone
      ensures GoneGood(t.s, x, t.gone[x])
    {
      assert GoneGood(w.s, x, w.gone[x]);
    }
  }

  lemma {:induction false} SavedGone(w: Wide, t: Wide, ref: Ref, id: string)
    requires LeftGood(w) && ref in t.gone && t.gone == w.gone[ref := t.gone[ref]] && ref < w.s.next
    requires t.s.history == w.s.history + [Save(id)] && t.s.next == w.s.next && t.s.nodes == w.s.nodes - {ref}
    requires t.gone[ref].sessionId == id != "" && t.gone[ref].referrers <= 0
    requires forall r :: r in t.left && t.left[r].Holds? ==> (r in w.left && w.left[r] == t.left[r]) || t.left[r].ref == ref
    ensures LeftGood(t)
  {
    AllLastAppended(w.s.history, Save(id));
    hide LastOf;
    forall x | x in t.gone
      ensures GoneGood(t.s, x, t.gone[x])
    {
      if x != ref { assert GoneGood(w.s, x, w.gone[x]); }
    }
  }

  /** Ordinary steps keep the invariant. */
  lemma {:induction false} PlainGood(w: Wide, step: Step)
    requires WideGood(w) && WideEnabled(w, Plain(step))
    ensures WideGood(WideNext(w, Plain(step))) && WideNext(w, Plain(step)).s == Next(w.s, step)
  {
    NextGood(w.s, step);
    if step.After? {
      ExitIsAfter(w, step.r, step.generated);
      ExitLeft(w, step.r, step.generated);
    } else {
      StepGrows(w.s, step);
      hide Good, LeftGood, Grows;
      GrowsLeft(w, Next(w.s, step));
    }
  }

  // ---------------------------------------------------------------- exits too many and too few

  /** The session is still held: its count falls below the number of its holders. */
  lemma {:induction false} AgainHeld(w: Wide, r: Request)
    requires WideGood(w) && r in w.left && w.left[r].Holds? && w.left[r].ref in w.s.nodes
    ensures !Good(Leave(w, w.left[r], "").s)
  {
    var ref := w.left[r].ref;
    var t := Leave(w, w.left[r], "").s;
    assert NodeGood(w.s, ref) && !(ref in w.gone && GoneGood(w.s, ref, w.gone[ref]));
    assert t.held == w.s.held && ref in t.nodes;
    assert Holders(t, ref) == Holders(w.s, ref);
    hide Holders, LastOf, Alternates;
    assert !NodeGood(t, ref);
  }

  /** Nobody holds it: it is saved once more, without a load, or while another session of its id is cached. */
  lemma {:induction false} AgainGone(w: Wide, r: Request)
    requires WideGood(w) && r in w.left && w.left[r].Holds? && w.left[r].ref !in w.s.nodes
    ensures !Good(Leave(w, w.left[r], "").s)
  {
    var s, ref := w.s, w.left[r].ref;
    assert ref in w.gone && GoneGood(s, ref, w.gone[ref]);
    var id := w.gone[ref].sessionId;
    var t := Leave(w, w.left[r], "").s;
    assert t == s.(cache := s.cache - {id}, store := t.store, history := s.history + [Save(id)]);
    if id in s.cache {
      var x := s.cache[id];
      hide NodeGood, LastOf, Alternates;
      assert x in s.nodes && s.nodes[x].sessionId == id;
      UncachedBad(t, x);
    } else {
      LastAppended(s.history, Save(id), id);
      assert LastOf(s.history, id) == Saved;
      assert !Alternates(t.history);
    }
  }

  lemma UncachedBad(t: State, x: Ref)
    requires x in t.nodes && t.nodes[x].sessionId != "" && t.nodes[x].sessionId !in t.cache
    ensures !Good(t)
  {
    assert !NodeGood(t, x);
  }

  /** A holder disappears without having been counted down. */
  lemma {:induction false} VanishHeld(w: Wide, r: Request)
    requires WideGood(w) && r in w.s.held && w.s.held[r].Holds? && w.s.held[r].ref in w.s.nodes
    requires w.s.nodes[w.s.held[r].ref].sessionId != ""
    ensures !Good(Vanished(w, r).s)
  {
    var ref := w.s.held[r].ref;
    var t := Vanished(w, r).s;
    assert NodeGood(w.s, ref);
    HolderRemoved(w.s, t, r, ref);
    hide Holders, LastOf, Alternates;
    assert !NodeGood(t, ref);
  }

  lemma {:induction false} VanishEmpty(w: Wide, r: Request)
    requires WideGood(w) && r in w.s.held && w.s.held[r].Nothing?
    ensures WideGood(Vanished(w, r))
  {
    var s, t := w.s, Vanished(w, r).s;
    SameHolders(s, t);
    SameNodes(s, t);
    assert Linked(t) by { hide NodeGood, Recorded, Holders; }
    hide Good, NodeGood, Holders, Linked, LastOf;
    SameGone(w, Vanished(w, r));
  }

  lemma {:induction false} SameNodes(s: State, t: State)
    requires Good(s) && t == s.(held := t.held) && forall x :: Holders(t, x) == Holders(s, x)
    ensures (forall x :: x in t.nodes ==> NodeGood(t, x)) && Recorded(t)
  {
    hide LastOf, Alternates, Holders;
    forall x | x in t.nodes
      ensures NodeGood(t, x)
    {
      assert NodeGood(s, x);
    }
  }

  lemma {:induction false} VanishOwn(w: Wide, r: Request)
    requires WideGood(w) && r in w.s.held && w.s.held[r].Holds? && w.s.held[r].ref in w.s.nodes
    requires w.s.nodes[w.s.held[r].ref].sessionId == ""
    ensures WideGood(Vanished(w, r))
  {
    var s, t, ref := w.s, Vanished(w, r).s, w.s.held[r].ref;
    CachedUnder(s, ref);
    HeldByOne(s, ref);
    HolderRemoved(s, t, r, ref);
    NobodyLeft(t, ref);
    OwnNodesStay(s, t, ref);
    assert Linked(t) by { hide NodeGood, Recorded, Holders; }
    hide NodeGood, Holders, Linked, Recorded, LeftGood;
    OwnGone(w, t, ref);
  }

  lemma {:induction false} OwnGone(w: Wide, t: State, ref: Ref)
    requires LeftGood(w) && ref in w.s.nodes && w.s.nodes[ref].sessionId == ""
    requires t.nodes == w.s.nodes - {ref} && t.next == w.s.next && t.history == w.s.history
    ensures LeftGood(w.(s := t))
  {
    hide LastOf;
    forall x | x in w.gone
      ensures GoneGood(t, x, w.gone[x])
    {
      assert GoneGood(w.s, x, w.gone[x]);
    }
  }

  lemma {:induction false} OwnNodesStay(s: State, t: State, ref: Ref)
    requires Good(s) && ref in s.nodes
    requires t == s.(nodes := s.nodes - {ref}, loaded := s.loaded - {ref}, held := t.held)
    requires forall x :: x != ref ==> Holders(t, x) == Holders(s, x)
    requires forall id :: id in s.cache ==> s.cache[id] != ref
    ensures (forall x :: x in t.nodes ==> NodeGood(t, x)) && Recorded(t)
  {
    hide LastOf, Alternates, Holders;
    forall x | x in t.nodes
      ensures NodeGood(t, x)
    {
      assert NodeGood(s, x);
    }
  }

  /** A step keeps the invariant, if and only if it is an ordinary one, or the context of the additional
      or missing exit holds no session that others could share. */
  lemma {:induction false} KeptExactly(w: Wide, step: WideStep)
    requires WideGood(w) && WideEnabled(w, step)
    ensures Good(WideNext(w, step).s) <==> Harmless(w, step)
    ensures Harmless(w, step) ==> WideGood(WideNext(w, step))
  {
    match step {
      case Plain(p) => PlainGood(w, p);
      case Again(r) =>
        if w.left[r].Holds? {
          if w.left[r].ref in w.s.nodes { AgainHeld(w, r); } else { AgainGone(w, r); }
        }
      case Vanish(r) =>
        HeldKnown(w, r);
        if w.s.held[r].Nothing? {
          VanishEmpty(w, r);
        } else {
          HeldIsCounted(w.s, r);
          if w.s.nodes[w.s.held[r].ref].sessionId == "" { VanishOwn(w, r); } else { VanishHeld(w, r); }
        }
    }
  }

  lemma HeldIsCounted(s: State, r: Request)
    requires Good(s) && r in s.held && s.held[r].Holds?
    ensures s.held[r].ref in s.nodes
  {
  }

  // ---------------------------------------------------------------- whole runs

  ghost predicate Allowed(w: Wide, steps: seq<WideStep>)
    requires WideGood(w)
    decreases |steps|
  {
    steps == [] ||
    (WideEnabled(w, steps[0]) && Harmless(w, steps[0]) &&
     (KeptExactly(w, steps[0]); Allowed(WideNext(w, steps[0]), steps[1..])))
  }

  ghost function WideRun(w: Wide, steps: seq<WideStep>): (t: Wide)
    requires WideGood(w) && Allowed(w, steps)
    ensures WideGood(t)
    decreases |steps|
  {
    if steps == [] then w else (KeptExactly(w, steps[0]); WideRun(WideNext(w, steps[0]), steps[1..]))
  }

  function AbstractWide(a: Abstract, step: WideStep): Abstract {
    match step
    case Plain(p) => AbstractNext(a, p)
    case Again(_) => a
    case Vanish(r) => Abstract(a.sessions, a.using - {r}, a.unsaved - {r})
  }

  function AbstractWideRun(a: Abstract, steps: seq<WideStep>): Abstract
    decreases |steps|
  {
    if steps == [] then a else AbstractWideRun(AbstractWide(a, steps[0]), steps[1..])
  }

  lemma {:induction false} OwnLogicalStays(s: State, t: State, ref: Ref)
    requires Pointers(s) && Pointers(t) && t.nodes == s.nodes - {ref} && t.cache == s.cache && t.store == s.store
    ensures Logical(t) == Logical(s)
  {
  }

  lemma {:induction false} VanishRefines(w: Wide, r: Request)
    requires WideGood(w) && WideEnabled(w, Vanish(r)) && Harmless(w, Vanish(r))
    ensures Pointers(w.s) && Pointers(Vanished(w, r).s)
    ensures AbstractOf(Vanished(w, r).s) == AbstractWide(AbstractOf(w.s), Vanish(r))
  {
    KeptExactly(w, Vanish(r));
    var s, t := w.s, Vanished(w, r).s;
    GoodPointers(s);
    GoodPointers(t);
    if s.held[r].Nothing? {
      hide Good, LeftGood;
      RequestRemoved(s, r);
    } else {
      CachedUnder(s, s.held[r].ref);
      hide Good, LeftGood;
      LastRequest(s, t, r);
      OwnLogicalStays(s, t, s.held[r].ref);
      hide Logical, UsingOf, UnsavedOf;
    }
  }

  lemma {:induction false} WideRefines(w: Wide, step: WideStep)
    requires WideGood(w) && WideEnabled(w, step) && Harmless(w, step)
    ensures Pointers(w.s) && Pointers(WideNext(w, step).s)
    ensures AbstractOf(WideNext(w, step).s) == AbstractWide(AbstractOf(w.s), step)
  {
    match step {
      case Plain(p) =>
        PlainGood(w, p);
        Refines(w.s, p);
      case Again(r) => GoodPointers(w.s);
      case Vanish(r) => VanishRefines(w, r);
    }
  }

  lemma {:induction false} WideRunRefines(w: Wide, steps: seq<WideStep>)
    requires WideGood(w) && Allowed(w, steps)
    ensures Pointers(w.s) && Pointers(WideRun(w, steps).s)
    ensures AbstractOf(WideRun(w, steps).s) == AbstractWideRun(AbstractOf(w.s), steps)
    decreases |steps|
  {
    GoodPointers(w.s);
    if steps != [] {
      KeptExactly(w, steps[0]);
      WideRefines(w, steps[0]);
      WideRunRefines(WideNext(w, steps[0]), steps[1..]);
    }
  }

  function Fresh(sessions: map<string, Entries>): (w: Wide)
    ensures "" !in sessions ==> WideGood(w)
  {
    Wide(Initial(sessions), map[], map[])
  }

  /** Every interleaving, also of requests that exit again or never, as long as these hold no session
      others could share: the counts are right, loads and saves alternate, and the contents are those
      of all sets and removes in order. */
  lemma {:induction false} EveryWideRun(sessions: map<string, Entries>, steps: seq<WideStep>)
    requires "" !in sessions && Allowed(Fresh(sessions), steps)
    ensures
      var t := WideRun(Fresh(sessions), steps).s;
      && Good(t) && Pointers(t) && Alternates(t.history)
      && AbstractOf(t) == AbstractWideRun(Abstract(sessions, map[], map[]), steps)
      && forall id :: id in t.cache ==> t.nodes[t.cache[id]].referrers == |Holders(t, t.cache[id])| > 0
  {
    var w := Fresh(sessions);
    WideRunRefines(w, steps);
    assert Logical(w.s) == sessions;
    assert AbstractOf(w.s) == Abstract(sessions, map[], map[]);
    var t := WideRun(w, steps).s;
    hide WideRun, AbstractOf, AbstractWideRun, LeftGood;
    forall id | id in t.cache
      ensures t.nodes[t.cache[id]].referrers == |Holders(t, t.cache[id])| > 0
    {
      assert NodeGood(t, t.cache[id]);
    }
  }

  // ---------------------------------------------------------------- a run that goes wrong

  const CONTENTS: Entries := map["k" := Flag(true)]
  const STORED := map["a" := CONTENTS]

  /** Request 0 has loaded session "a". */
  const LOADED := Wide(
    State(map[0 := Node("a", CONTENTS, {}, false, 1)], 1, map["a" := 0], map["a" := map[]], map[0 := Holds(0)],
          map[0 := CONTENTS], [Load("a")]),
    map[], map[])

  /** Request 1 shares it, and request 0 has left. */
  const SHARED := Wide(
    State(map[0 := Node("a", CONTENTS, {}, false, 1)], 1, map["a" := 0], map["a" := map[]], map[1 := Holds(0)],
          map[0 := CONTENTS], [Load("a")]),
    map[0 := Holds(0)], map[])

  lemma {:induction false} FirstLoads()
    ensures WideGood(Fresh(STORED)) && WideEnabled(Fresh(STORED), Plain(Before(0, "a")))
    ensures WideNext(Fresh(STORED), Plain(Before(0, "a"))) == LOADED && WideGood(LOADED)
  {
    PlainGood(Fresh(STORED), Before(0, "a"));
    hide Good, LeftGood;
  }

  const BOTH := LOADED.(s := LOADED.s.(nodes := map[0 := Node("a", CONTENTS, {}, false, 2)],
                                       held := map[0 := Holds(0), 1 := Holds(0)]))

  lemma {:induction false} SecondShares()
    ensures WideGood(LOADED) && WideEnabled(LOADED, Plain(Before(1, "a")))
    ensures WideNext(LOADED, Plain(Before(1, "a"))) == BOTH && WideGood(BOTH)
  {
    FirstLoads();
    hide Good, LeftGood, NodeGood, Alternates, LastOf;
    PlainGood(LOADED, Before(1, "a"));
    SecondJoins();
  }

  lemma {:induction false} SecondJoins()
    requires Good(LOADED.s)
    ensures Next(LOADED.s, Before(1, "a")) == BOTH.s
  {
    hide Good;
  }

  lemma {:induction false} FirstLeaves()
    ensures WideGood(BOTH) && WideEnabled(BOTH, Plain(After(0, "x")))
    ensures WideNext(BOTH, Plain(After(0, "x"))) == SHARED && WideGood(SHARED)
  {
    SecondShares();
    PlainGood(BOTH, After(0, "x"));
    hide Good, LeftGood;
    var held := BOTH.s.(held := BOTH.s.held - {0});
    assert 1 in Holders(held, 0);
    ExitShared(BOTH, 0, "x");
  }

  /** After the exit that does not belong to an entry: saved, uncached, and still held. */
  const STRANDED := SHARED.(s := SHARED.s.(nodes := map[0 := Node("a", map[], {}, false, 0)], cache := map[],
                                           store := STORED, history := [Load("a"), Save("a")]))

  lemma {:induction false} AgainShared()
    ensures WideGood(SHARED) && WideEnabled(SHARED, Again(0)) && !Harmless(SHARED, Again(0))
    ensures WideNext(SHARED, Again(0)) == STRANDED && !Good(STRANDED.s)
  {
    FirstLeaves();
    KeptExactly(SHARED, Again(0));
    hide Good, LeftGood;
    OneStillHolds();
  }

  lemma OneStillHolds()
    ensures Leave(SHARED, Holds(0), "") == STRANDED
  {
    assert [Load("a")] + [Save("a")] == [Load("a"), Save("a")];
  }

  lemma {:induction false} StrandedExit()
    ensures Known(STRANDED, STRANDED.s.held[1])
    ensures Exit(STRANDED, 1, "x").s.history == [Load("a"), Save("a")] + [Save("a")]
    ensures Exit(STRANDED, 1, "x").s.store == map["a" := map[]]
  {
    hide Holders;
  }

  lemma {:induction false} SavedTwice()
    ensures [Load("a"), Save("a")] + [Save("a")] == [Load("a"), Save("a"), Save("a")]
    ensures !Alternates([Load("a"), Save("a"), Save("a")])
  {
    LastAppended([Load("a"), Save("a")], Save("a"), "a");
    LastAppended([Load("a")], Save("a"), "a");
    hide Alternates, LastOf;
    assert [Load("a")] + [Save("a")] == [Load("a"), Save("a")];
    assert [Load("a"), Save("a")] + [Save("a")] == [Load("a"), Save("a"), Save("a")];
  }

  /** Two requests share a session; the first has left, and its connection brings a request for which
      nothing is found. The session leaves the cache while it is held. When the second request leaves, it
      is saved again without a load, and its contents are lost. */
  lemma {:induction false} ExitTwice()
    ensures WideGood(SHARED) && WideEnabled(SHARED, Again(0)) && !Harmless(SHARED, Again(0))
    ensures
      var t := WideNext(SHARED, Again(0));
      && !Good(t.s) && t.s.held[1] == Holds(0) && t.s.nodes[0].referrers == 0 && "a" !in t.s.cache && t.s.store == STORED
      && Known(t, t.s.held[1])
      && Exit(t, 1, "x").s.history == [Load("a"), Save("a"), Save("a")]
      && !Alternates(Exit(t, 1, "x").s.history)
      && Exit(t, 1, "x").s.store == map["a" := map[]]
  {
    AgainShared();
    StrandedExit();
    SavedTwice();
    hide Good, LeftGood, WideNext, Exit, Alternates;
  }
}
