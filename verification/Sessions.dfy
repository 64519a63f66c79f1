/** Sessions shared by concurrent requests. Each request's entry and exit, and each access to a
    session, is one critical section; a run of the server is any sequence of such steps. */
module Sessions {

  datatype MultiValue = Flag(b: bool) | Whole(n: int) | Fraction(r: real) | Text(s: string)

  type Entries = map<string, MultiValue>

  /** `CachedSession`. It is shared through pointers; a session that was never stored has no id. */
  datatype Node = Node(sessionId: string, entries: Entries, dirty: set<string>, requestedRefresh: bool, referrers: int)

  type Ref = nat
  type Request = nat

  datatype Holding = Nothing | Holds(ref: Ref)

  /** What the store is asked to do. */
  datatype Event = Load(id: string) | Save(id: string)

  /** The shared state: the sessions pointed to, the cache, the store, and for every request in
      flight what its context holds; and the record of what happened so far. */
  datatype State = State(
    nodes: map<Ref, Node>,
    next: Ref,
    cache: map<string, Ref>,
    store: map<string, Entries>,
    held: map<Request, Holding>,
    loaded: map<Ref, Entries>,
    history: seq<Event>)

  /** One critical section. */
  datatype Step =
    | Before(r: Request, id: string)
    | Set(r: Request, key: string, value: MultiValue)
    | Remove(r: Request, key: string)
    | Refresh(r: Request)
    | After(r: Request, generated: string)

  // ---------------------------------------------------------------- the steps

  /** `check_node`: a request without a session gets one of its own. */
  function CheckNode(s: State, r: Request): (t: State)
    requires r in s.held
    ensures r in t.held && t.held[r].Holds?
  {
    if s.held[r].Holds? then s
    else
      s.(nodes := s.nodes[s.next := Node("", map[], {}, false, 0)],
         held := s.held[r := Holds(s.next)],
         loaded := s.loaded[s.next := map[]],
         next := s.next + 1)
  }

  /** The steps that make sense in a state; a generated id is new. */
  predicate Enabled(s: State, step: Step) {
    match step
    case Before(r, id) => r !in s.held
    case Set(r, _, _) => r in s.held
    case Remove(r, _) => r in s.held
    case Refresh(r) => r in s.held
    case After(r, generated) => r in s.held && generated != "" && generated !in s.store
  }

  function Next(s: State, step: Step): State
    requires Good(s) && Enabled(s, step)
  {
    match step
    case Before(r, id) =>
      if id == "" then s.(held := s.held[r := Nothing])
      else if id in s.cache then
        var n := s.nodes[s.cache[id]];
        s.(nodes := s.nodes[s.cache[id] := n.(referrers := n.referrers + 1)], held := s.held[r := Holds(s.cache[id])])
      else if id !in s.store then s.(held := s.held[r := Nothing])
      else
        s.(nodes := s.nodes[s.next := Node(id, s.store[id], {}, false, 1)],
           loaded := s.loaded[s.next := s.store[id]],
           store := s.store[id := map[]],
           cache := s.cache[id := s.next],
           held := s.held[r := Holds(s.next)],
           history := s.history + [Load(id)],
           next := s.next + 1)
    case Set(r, key, value) =>
      var t := CheckNode(s, r);
      CheckNodeGood(s, r);
      var ref := t.held[r].ref;
      var n := t.nodes[ref];
      t.(nodes := t.nodes[ref := n.(dirty := n.dirty + {key}, entries := n.entries[key := value])])
    case Remove(r, key) =>
      if s.held[r].Nothing? then s
      else
        var ref := s.held[r].ref;
        var n := s.nodes[ref];
        s.(nodes := s.nodes[ref := n.(dirty := n.dirty + {key}, entries := n.entries - {key})])
    case Refresh(r) =>
      if s.held[r].Nothing? then s
      else
        var ref := s.held[r].ref;
        s.(nodes := s.nodes[ref := s.nodes[ref].(requestedRefresh := true)])
    case After(r, generated) =>
      if s.held[r].Nothing? then s.(held := s.held - {r})
      else
        var ref := s.held[r].ref;
        var n := s.nodes[ref].(referrers := s.nodes[ref].referrers - 1);
        if n.referrers > 0 then s.(nodes := s.nodes[ref := n], held := s.held - {r})
        else
          var id := if n.sessionId == "" then generated else n.sessionId;
          s.(nodes := s.nodes - {ref},
             loaded := s.loaded - {ref},
             cache := if n.sessionId == "" then s.cache else s.cache - {id},
             store := s.store[id := n.entries],
             held := s.held - {r},
             history := s.history + [Save(id)])
  }

  /** The id the response's cookie is set to, or "" if it is not set. */
  function Cookie(s: State, step: Step): string
    requires Good(s) && Enabled(s, step)
  {
    if !step.After? || s.held[step.r].Nothing? then ""
    else
      var n := s.nodes[s.held[step.r].ref];
      if n.referrers > 1 then ""
      else if n.sessionId == "" then step.generated
      else if n.requestedRefresh then n.sessionId
      else ""
  }

  // ---------------------------------------------------------------- what holds between steps

  /** The requests that hold a session. */
  function Holders(s: State, ref: Ref): set<Request> {
    set r | r in s.held && s.held[r] == Holds(ref)
  }

  datatype Last = Never | Loaded | Saved

  /** The latest event of one id. */
  function LastOf(history: seq<Event>, id: string): Last {
    if history == [] then Never
    else
      var e := history[|history| - 1];
      if e.id == id then (if e.Load? then Loaded else Saved) else LastOf(history[..|history| - 1], id)
  }

  /** No id is loaded twice without a save in between, nor saved twice without a load. */
  predicate Alternates(history: seq<Event>) {
    history == [] ||
    (var n := |history| - 1;
     Alternates(history[..n]) &&
     LastOf(history[..n], history[n].id) != if history[n].Load? then Loaded else Saved)
  }

  /** A cached session counts exactly the requests that hold it and is out of the store; a session
      without an id belongs to one request. */
  ghost predicate NodeGood(s: State, ref: Ref)
    requires ref in s.nodes
  {
    var n := s.nodes[ref];
    && ref < s.next
    && (if n.sessionId == "" then n.referrers == 0 && |Holders(s, ref)| == 1
        else
          && n.sessionId in s.cache && s.cache[n.sessionId] == ref
          && n.referrers == |Holders(s, ref)| > 0
          && n.sessionId in s.store && s.store[n.sessionId] == map[])
    && ref in s.loaded
    && forall k :: k !in n.dirty ==> Same(n.entries, s.loaded[ref], k)
  }

  predicate Same(a: Entries, b: Entries, k: string) {
    (k in a <==> k in b) && (k in a ==> a[k] == b[k])
  }

  /** Requests and cache point to sessions, the cache under their own ids. */
  predicate Linked(s: State) {
    && (forall r :: r in s.held && s.held[r].Holds? ==> s.held[r].ref in s.nodes)
    && (forall id :: id in s.cache ==> s.cache[id] in s.nodes && s.nodes[s.cache[id]].sessionId == id)
    && "" !in s.store && "" !in s.cache
  }

  /** Loads and saves alternate, and what is loaded is what is cached. */
  ghost predicate Recorded(s: State) {
    && Alternates(s.history)
    && (forall id :: LastOf(s.history, id) == Loaded <==> id in s.cache)
    && (forall id :: id !in s.store ==> LastOf(s.history, id).Never?)
  }

  ghost predicate Good(s: State) {
    && (forall ref :: ref in s.nodes ==> NodeGood(s, ref))
    && Linked(s)
    && Recorded(s)
  }

  // ---------------------------------------------------------------- what clients see

  /** The contents of every session: in the cache if it is there, else in the store. */
  function Logical(s: State): map<string, Entries>
    requires forall id :: id in s.cache ==> s.cache[id] in s.nodes
  {
    map id | id in s.store :: if id in s.cache then s.nodes[s.cache[id]].entries else s.store[id]
  }

  /** What a request sees: nothing, or the session it holds. */
  function Seen(s: State, r: Request): Entries
    requires r in s.held && (s.held[r].Holds? ==> s.held[r].ref in s.nodes)
  {
    match s.held[r]
    case Nothing => map[]
    case Holds(ref) => s.nodes[ref].entries
  }

  /** The session a request holds, or "" if it holds none or one without an id. */
  function SessionOf(s: State, r: Request): string
    requires r in s.held && (s.held[r].Holds? ==> s.held[r].ref in s.nodes)
  {
    match s.held[r]
    case Nothing => ""
    case Holds(ref) => s.nodes[ref].sessionId
  }

  // ---------------------------------------------------------------- the proof

  lemma LastAppended(history: seq<Event>, e: Event, id: string)
    ensures LastOf(history + [e], id) ==
            if e.id == id then (if e.Load? then Loaded else Saved) else LastOf(history, id)
    ensures Alternates(history + [e]) <==>
            Alternates(history) && LastOf(history, e.id) != if e.Load? then Loaded else Saved
  {
    assert (history + [e])[..|history|] == history;
  }

  lemma AllLastAppended(history: seq<Event>, e: Event)
    ensures forall id :: LastOf(history + [e], id) ==
              (if e.id == id then (if e.Load? then Loaded else Saved) else LastOf(history, id))
  {
    forall id
      ensures LastOf(history + [e], id) ==
              if e.id == id then (if e.Load? then Loaded else Saved) else LastOf(history, id)
    {
      LastAppended(history, e, id);
    }
  }

  /** Only the changed request's holding decides who holds a session. */
  lemma OthersHold(s: State, t: State, r: Request, x: Ref)
    requires forall q :: q != r ==> (q in t.held <==> q in s.held) && (q in s.held ==> t.held[q] == s.held[q])
    requires (r in s.held ==> s.held[r] != Holds(x)) && (r in t.held ==> t.held[r] != Holds(x))
    ensures Holders(t, x) == Holders(s, x)
  {
  }

  /** A request comes to a session. */
  lemma {:induction false} HolderAdded(s: State, t: State, r: Request, ref: Ref)
    requires r !in s.held || s.held[r].Nothing?
    requires t.held == s.held[r := Holds(ref)]
    ensures Holders(t, ref) == Holders(s, ref) + {r} && |Holders(t, ref)| == |Holders(s, ref)| + 1
    ensures forall x :: x != ref ==> Holders(t, x) == Holders(s, x)
  {
    assert Holders(t, ref) == Holders(s, ref) + {r};
    assert r !in Holders(s, ref);
    hide Holders;
    forall x | x != ref
      ensures Holders(t, x) == Holders(s, x)
    {
      OthersHold(s, t, r, x);
    }
  }

  lemma {:induction false} HolderRemoved(s: State, t: State, r: Request, ref: Ref)
    requires r in s.held && s.held[r] == Holds(ref) && t.held == s.held - {r}
    ensures Holders(t, ref) == Holders(s, ref) - {r} && |Holders(t, ref)| == |Holders(s, ref)| - 1
    ensures forall x :: x != ref ==> Holders(t, x) == Holders(s, x)
  {
    assert Holders(t, ref) == Holders(s, ref) - {r};
    assert r in Holders(s, ref);
    hide Holders;
    forall x | x != ref
      ensures Holders(t, x) == Holders(s, x)
    {
      OthersHold(s, t, r, x);
    }
  }

  lemma SameHolders(s: State, t: State)
    requires forall r, ref :: r in t.held && t.held[r] == Holds(ref) <==> r in s.held && s.held[r] == Holds(ref)
    ensures forall ref :: Holders(t, ref) == Holders(s, ref)
  {
  }

  lemma NoHolder(s: State, ref: Ref)
    requires forall r :: r in s.held ==> s.held[r] != Holds(ref)
    ensures Holders(s, ref) == {}
  {
  }

  lemma {:induction false} CheckNodeGood(s: State, r: Request)
    requires Good(s) && r in s.held
    ensures Good(CheckNode(s, r)) && CheckNode(s, r).held[r].ref in CheckNode(s, r).nodes
    ensures Logical(CheckNode(s, r)) == Logical(s) && Seen(CheckNode(s, r), r) == Seen(s, r)
  {
    if s.held[r].Nothing? {
      FreshRef(s);
      OwnNodes(s, r);
      OwnLogical(s, r);
      hide NodeGood, Recorded, Logical;
    }
  }

  lemma {:induction false} OwnNodes(s: State, r: Request)
    requires Good(s) && r in s.held && s.held[r].Nothing?
    ensures Recorded(CheckNode(s, r))
    ensures forall ref :: ref in CheckNode(s, r).nodes ==> NodeGood(CheckNode(s, r), ref)
  {
    hide Alternates, LastOf;
    var t := CheckNode(s, r);
    FreshRef(s);
    HolderAdded(s, t, r, s.next);
    hide Holders;
    forall ref | ref in t.nodes
      ensures NodeGood(t, ref)
    {
      if ref != s.next { assert NodeGood(s, ref); }
    }
  }

  lemma {:induction false} OwnLogical(s: State, r: Request)
    requires r in s.held && s.held[r].Nothing? && s.next !in s.nodes
    requires forall id :: id in s.cache ==> s.cache[id] in s.nodes
    ensures Logical(CheckNode(s, r)) == Logical(s)
  {
  }

  lemma FreshRef(s: State)
    requires Good(s)
    ensures s.next !in s.nodes && Holders(s, s.next) == {} && s.next !in s.cache.Values
  {
    NoHolder(s, s.next);
  }

  /** Every critical section keeps the invariant. */
  lemma NextGood(s: State, step: Step)
    requires Good(s) && Enabled(s, step)
    ensures Good(Next(s, step))
  {
    match step {
      case Before(r, id) => BeforeGood(s, r, id);
      case Set(r, key, value) => SetGood(s, r, key, value);
      case Remove(r, key) => RemoveGood(s, r, key);
      case Refresh(r) => RefreshGood(s, r);
      case After(r, generated) => AfterGood(s, r, generated);
    }
  }

  lemma BeforeGood(s: State, r: Request, id: string)
    requires Good(s) && r !in s.held
    ensures Good(Next(s, Before(r, id)))
  {
    var t := Next(s, Before(r, id));
    if id == "" || (id !in s.cache && id !in s.store) {
      SameHolders(s, t);
    } else if id in s.cache {
      SharedGood(s, r, id);
    } else {
      LoadedGood(s, r, id);
    }
  }

  lemma SharedGood(s: State, r: Request, id: string)
    requires Good(s) && r !in s.held && id in s.cache
    ensures Good(Next(s, Before(r, id)))
  {
    HolderAdded(s, Next(s, Before(r, id)), r, s.cache[id]);
  }

  lemma {:induction false} LoadedGood(s: State, r: Request, id: string)
    requires Good(s) && r !in s.held && id != "" && id !in s.cache && id in s.store
    ensures Good(Next(s, Before(r, id)))
  {
    LoadedRecorded(s, r, id);
    LoadedNodes(s, r, id);
    FreshRef(s);
    hide NodeGood, Recorded;
  }

  lemma {:induction false} LoadedRecorded(s: State, r: Request, id: string)
    requires Good(s) && r !in s.held && id != "" && id !in s.cache && id in s.store
    ensures Recorded(Next(s, Before(r, id)))
  {
    AllLastAppended(s.history, Load(id));
    LastAppended(s.history, Load(id), id);
    hide LastOf, Alternates, NodeGood;
  }

  lemma {:induction false} LoadedNodes(s: State, r: Request, id: string)
    requires Good(s) && r !in s.held && id != "" && id !in s.cache && id in s.store
    ensures forall ref :: ref in Next(s, Before(r, id)).nodes ==> NodeGood(Next(s, Before(r, id)), ref)
  {
    var t := Next(s, Before(r, id));
    FreshRef(s);
    HolderAdded(s, t, r, s.next);
    hide Recorded, Holders;
    forall ref | ref in t.nodes
      ensures NodeGood(t, ref)
    {
      if ref != s.next { assert NodeGood(s, ref); }
    }
  }

  /** A session is edited, with the edited keys marked dirty. */
  lemma {:induction false} EditGood(s: State, ref: Ref, n: Node)
    requires Good(s) && ref in s.nodes
    requires n.sessionId == s.nodes[ref].sessionId && n.referrers == s.nodes[ref].referrers
    requires s.nodes[ref].dirty <= n.dirty
    requires forall k :: k !in n.dirty ==> Same(n.entries, s.nodes[ref].entries, k)
    ensures Good(s.(nodes := s.nodes[ref := n]))
  {
    hide LastOf, Alternates;
    var t := s.(nodes := s.nodes[ref := n]);
    SameHolders(s, t);
    forall x | x in t.nodes
      ensures NodeGood(t, x)
    {
      assert NodeGood(s, x);
    }
  }

  lemma {:induction false} SetGood(s: State, r: Request, key: string, value: MultiValue)
    requires Good(s) && r in s.held
    ensures Good(Next(s, Set(r, key, value)))
  {
    var t := CheckNode(s, r);
    CheckNodeGood(s, r);
    var n := t.nodes[t.held[r].ref];
    hide Good, CheckNode;
    EditGood(t, t.held[r].ref, n.(dirty := n.dirty + {key}, entries := n.entries[key := value]));
  }

  lemma {:induction false} RemoveGood(s: State, r: Request, key: string)
    requires Good(s) && r in s.held
    ensures Good(Next(s, Remove(r, key)))
  {
    if s.held[r].Holds? {
      var n := s.nodes[s.held[r].ref];
      hide Good;
      EditGood(s, s.held[r].ref, n.(dirty := n.dirty + {key}, entries := n.entries - {key}));
    }
  }

  lemma {:induction false} RefreshGood(s: State, r: Request)
    requires Good(s) && r in s.held
    ensures Good(Next(s, Refresh(r)))
  {
    if s.held[r].Holds? {
      var n := s.nodes[s.held[r].ref];
      hide Good;
      EditGood(s, s.held[r].ref, n.(requestedRefresh := true));
    }
  }

  lemma AfterGood(s: State, r: Request, generated: string)
    requires Good(s) && Enabled(s, After(r, generated))
    ensures Good(Next(s, After(r, generated)))
  {
    var t := Next(s, After(r, generated));
    if s.held[r].Nothing? {
      SameHolders(s, t);
    } else if s.nodes[s.held[r].ref].referrers > 1 {
      HolderRemoved(s, t, r, s.held[r].ref);
    } else {
      SavedGood(s, r, generated);
    }
  }

  /** The last holder leaves: nobody points to the session any more, and it may be loaded again. */
  lemma {:induction false} SavedGood(s: State, r: Request, generated: string)
    requires Good(s) && Enabled(s, After(r, generated))
    requires s.held[r].Holds? && s.nodes[s.held[r].ref].referrers <= 1
    ensures Good(Next(s, After(r, generated)))
  {
    SavedRecorded(s, r, generated);
    SavedNodes(s, r, generated);
    SavedLinked(s, r, generated);
    hide NodeGood, Recorded, Linked;
  }

  lemma {:induction false} SavedRecorded(s: State, r: Request, generated: string)
    requires Good(s) && Enabled(s, After(r, generated))
    requires s.held[r].Holds? && s.nodes[s.held[r].ref].referrers <= 1
    ensures Recorded(Next(s, After(r, generated)))
  {
    var n := s.nodes[s.held[r].ref];
    var id := if n.sessionId == "" then generated else n.sessionId;
    var t := Next(s, After(r, generated));
    CachedUnder(s, s.held[r].ref);
    assert Recorded(s) && Linked(s) && t.history == s.history + [Save(id)];
    assert t.cache == if n.sessionId == "" then s.cache else s.cache - {id};
    assert t.store.Keys == s.store.Keys + {id};
    assert generated !in s.cache by { GoodPointers(s); }
    hide Good, NodeGood, Next;
    HistoryAfterSave(s, t, id);
  }

  lemma {:induction false} HistoryAfterSave(s: State, t: State, id: string)
    requires Recorded(s) && t.history == s.history + [Save(id)]
    requires t.store.Keys == s.store.Keys + {id} && t.cache.Keys == s.cache.Keys - {id}
    requires id in s.cache || id !in s.store
    ensures Recorded(t)
  {
    AllLastAppended(s.history, Save(id));
    LastAppended(s.history, Save(id), id);
    hide LastOf, Alternates;
  }

  lemma {:induction false} SavedLinked(s: State, r: Request, generated: string)
    requires Good(s) && Enabled(s, After(r, generated))
    requires s.held[r].Holds? && s.nodes[s.held[r].ref].referrers <= 1
    ensures Linked(Next(s, After(r, generated)))
  {
    var t := Next(s, After(r, generated));
    var ref := s.held[r].ref;
    CachedUnder(s, ref);
    HeldByOne(s, ref);
    HolderRemoved(s, t, r, ref);
    NobodyLeft(t, ref);
    hide Recorded, NodeGood, Holders;
    LinkedAfter(s, t, r, ref);
  }

  lemma LinkedAfter(s: State, t: State, r: Request, ref: Ref)
    requires Linked(s) && t.nodes == s.nodes - {ref} && t.held == s.held - {r} && "" !in t.store
    requires forall q :: q in t.held ==> t.held[q] != Holds(ref)
    requires forall id :: id in t.cache ==> id in s.cache && t.cache[id] == s.cache[id] && s.cache[id] != ref
    ensures Linked(t)
  {
  }

  lemma {:induction false} SavedNodes(s: State, r: Request, generated: string)
    requires Good(s) && Enabled(s, After(r, generated))
    requires s.held[r].Holds? && s.nodes[s.held[r].ref].referrers <= 1
    ensures forall x :: x in Next(s, After(r, generated)).nodes ==> NodeGood(Next(s, After(r, generated)), x)
  {
    var ref := s.held[r].ref;
    CachedUnder(s, ref);
    GoodPointers(s);
    hide NodeGood, Linked, Recorded;
    OthersGood(s, Next(s, After(r, generated)), r, ref, if s.nodes[ref].sessionId == "" then generated else s.nodes[ref].sessionId);
  }

  lemma {:induction false} OthersGood(s: State, t: State, r: Request, ref: Ref, id: string)
    requires (forall x :: x in s.nodes ==> NodeGood(s, x)) && ref in s.nodes && r in s.held && s.held[r] == Holds(ref)
    requires t.nodes == s.nodes - {ref} && t.next == s.next && t.loaded == s.loaded - {ref} && t.held == s.held - {r}
    requires t.cache == s.cache - {id} && (id in s.cache ==> s.cache[id] == ref)
    requires t.store.Keys == s.store.Keys + {id} && forall k :: k in s.store && k != id ==> t.store[k] == s.store[k]
    ensures forall x :: x in t.nodes ==> NodeGood(t, x)
  {
    HolderRemoved(s, t, r, ref);
    hide NodeGood, Holders;
    forall x | x in t.nodes
      ensures NodeGood(t, x)
    {
      OtherNode(s, t, ref, x, id);
    }
  }

  /** The node `ref` goes, and `id` is stored; another node is as good as before. */
  lemma OtherNode(s: State, t: State, ref: Ref, x: Ref, id: string)
    requires x in s.nodes && x != ref && NodeGood(s, x) && Holders(t, x) == Holders(s, x)
    requires t.nodes == s.nodes - {ref} && t.next == s.next && t.loaded == s.loaded - {ref}
    requires t.cache == s.cache - {id} && (id in s.cache ==> s.cache[id] == ref)
    requires t.store.Keys == s.store.Keys + {id} && forall k :: k in s.store && k != id ==> t.store[k] == s.store[k]
    ensures NodeGood(t, x)
  {
  }

  lemma HeldByOne(s: State, ref: Ref)
    requires Good(s) && ref in s.nodes && s.nodes[ref].referrers <= 1
    ensures |Holders(s, ref)| == 1
  {
    assert NodeGood(s, ref);
  }

  lemma NobodyLeft(t: State, ref: Ref)
    requires |Holders(t, ref)| == 0
    ensures forall q :: q in t.held ==> t.held[q] != Holds(ref)
  {
    forall q | q in t.held
      ensures t.held[q] != Holds(ref)
    {
      assert q !in Holders(t, ref);
    }
  }

  // ---------------------------------------------------------------- the specification

  /** Sessions without cache, store, counts or sharing: one map from ids to contents, the id each
      request uses, and the contents of sessions that have no id yet. */
  datatype Abstract = Abstract(sessions: map<string, Entries>, using: map<Request, string>, unsaved: map<Request, Entries>)

  function AbstractNext(a: Abstract, step: Step): Abstract {
    match step
    case Before(r, id) => a.(using := a.using[r := if id in a.sessions then id else ""])
    case Set(r, key, value) =>
      if r !in a.using then a
      else if a.using[r] in a.sessions then
        a.(sessions := a.sessions[a.using[r] := a.sessions[a.using[r]][key := value]])
      else
        a.(unsaved := a.unsaved[r := (if r in a.unsaved then a.unsaved[r] else map[])[key := value]])
    case Remove(r, key) =>
      if r !in a.using then a
      else if a.using[r] in a.sessions then
        a.(sessions := a.sessions[a.using[r] := a.sessions[a.using[r]] - {key}])
      else if r in a.unsaved then a.(unsaved := a.unsaved[r := a.unsaved[r] - {key}])
      else a
    case Refresh(r) => a
    case After(r, generated) =>
      Abstract(if r in a.unsaved then a.sessions[generated := a.unsaved[r]] else a.sessions,
               a.using - {r}, a.unsaved - {r})
  }

  /** Every pointer points to a session. */
  predicate Pointers(s: State) {
    && (forall r :: r in s.held && s.held[r].Holds? ==> s.held[r].ref in s.nodes)
    && (forall id :: id in s.cache ==> s.cache[id] in s.nodes)
  }

  predicate Unsaved(s: State, r: Request)
    requires Pointers(s)
  {
    r in s.held && s.held[r].Holds? && s.nodes[s.held[r].ref].sessionId == ""
  }

  function UsingOf(s: State): map<Request, string>
    requires Pointers(s)
  {
    map r | r in s.held :: SessionOf(s, r)
  }

  function UnsavedOf(s: State): map<Request, Entries>
    requires Pointers(s)
  {
    map r | r in s.held && Unsaved(s, r) :: Seen(s, r)
  }

  function AbstractOf(s: State): Abstract
    requires Pointers(s)
  {
    Abstract(Logical(s), UsingOf(s), UnsavedOf(s))
  }

  /** A request that holds a stored session sees its contents, whoever else holds it. */
  lemma SeenIsLogical(s: State, r: Request)
    requires Good(s) && r in s.held && SessionOf(s, r) != ""
    ensures SessionOf(s, r) in Logical(s) && Seen(s, r) == Logical(s)[SessionOf(s, r)]
  {
    assert NodeGood(s, s.held[r].ref);
  }

  // One kind of change at a time.

  /** A session is cached under its own id and no other. */
  lemma CachedUnder(s: State, ref: Ref)
    requires Good(s) && ref in s.nodes
    ensures forall id :: id in s.cache ==> (s.cache[id] == ref <==> id == s.nodes[ref].sessionId)
    ensures s.nodes[ref].sessionId != "" ==> s.nodes[ref].sessionId in s.cache && s.nodes[ref].sessionId in s.store
    ensures s.nodes[ref].sessionId == "" <==> s.nodes[ref].referrers == 0
    ensures s.nodes[ref].sessionId == "" ==> |Holders(s, ref)| == 1
  {
    assert NodeGood(s, ref);
  }

  lemma OnlyHolder(s: State, r: Request, q: Request)
    requires r in s.held && q in s.held && s.held[r].Holds? && s.held[r] == s.held[q]
    requires |Holders(s, s.held[r].ref)| == 1
    ensures r == q
  {
    var h := Holders(s, s.held[r].ref);
    assert r in h && q in h;
    assert |h - {r}| == 0;
    assert q !in h - {r};
  }

  lemma GoodPointers(s: State)
    requires Good(s)
    ensures Pointers(s) && s.next !in s.nodes && "" !in s.store
    ensures forall id :: id in s.cache ==> id in s.store && s.store[id] == map[]
    ensures forall r :: r in s.held ==> s.held[r] != Holds(s.next)
  {
    forall ref | ref in s.nodes ensures NodeGood(s, ref) {}
  }

  /** One session changes, keeping its id. */
  lemma NodeChanged(s: State, ref: Ref, n: Node)
    requires Pointers(s) && ref in s.nodes && n.sessionId == s.nodes[ref].sessionId
    requires forall id :: id in s.cache ==> (s.cache[id] == ref <==> id == n.sessionId)
    requires n.sessionId != "" ==> n.sessionId in s.cache && n.sessionId in s.store
    requires "" !in s.cache
    ensures
      var t := s.(nodes := s.nodes[ref := n]);
      && Pointers(t) && UsingOf(t) == UsingOf(s)
      && Logical(t) == (if n.sessionId == "" then Logical(s) else Logical(s)[n.sessionId := n.entries])
      && UnsavedOf(t).Keys == UnsavedOf(s).Keys
      && forall r :: r in UnsavedOf(t) ==>
           UnsavedOf(t)[r] == if s.held[r] == Holds(ref) then n.entries else UnsavedOf(s)[r]
  {
    var t := s.(nodes := s.nodes[ref := n]);
    assert Logical(t) == if n.sessionId == "" then Logical(s) else Logical(s)[n.sessionId := n.entries];
  }

  /** A request comes or goes; sessions stay as they are. */
  lemma {:induction false} RequestAdded(s: State, r: Request, h: Holding)
    requires Pointers(s) && r !in s.held && (h.Holds? ==> h.ref in s.nodes)
    ensures
      var t := s.(held := s.held[r := h]);
      && Pointers(t) && Logical(t) == Logical(s)
      && UsingOf(t) == UsingOf(s)[r := if h.Holds? then s.nodes[h.ref].sessionId else ""]
      && (h.Nothing? || s.nodes[h.ref].sessionId != "" ==> UnsavedOf(t) == UnsavedOf(s))
  {
    RequestUses(s, r, h);
    if h.Nothing? || s.nodes[h.ref].sessionId != "" { RequestUnsaved(s, r, h); }
    hide UsingOf, UnsavedOf;
  }

  lemma RequestUses(s: State, r: Request, h: Holding)
    requires Pointers(s) && r !in s.held && (h.Holds? ==> h.ref in s.nodes)
    ensures UsingOf(s.(held := s.held[r := h])) == UsingOf(s)[r := if h.Holds? then s.nodes[h.ref].sessionId else ""]
  {
  }

  lemma RequestUnsaved(s: State, r: Request, h: Holding)
    requires Pointers(s) && r !in s.held && (h.Nothing? || (h.ref in s.nodes && s.nodes[h.ref].sessionId != ""))
    ensures UnsavedOf(s.(held := s.held[r := h])) == UnsavedOf(s)
  {
  }

  lemma RequestRemoved(s: State, r: Request)
    requires Pointers(s) && r in s.held
    ensures
      var t := s.(held := s.held - {r});
      && Pointers(t) && Logical(t) == Logical(s)
      && UsingOf(t) == UsingOf(s) - {r} && UnsavedOf(t) == UnsavedOf(s) - {r}
  {
  }

  lemma {:induction false} CheckNodeAbstract(s: State, r: Request)
    requires Good(s) && r in s.held
    ensures Pointers(s) && Pointers(CheckNode(s, r))
    ensures
      var t := CheckNode(s, r);
      && Logical(t) == Logical(s) && UsingOf(t) == UsingOf(s)
      && UnsavedOf(t) == if s.held[r].Nothing? then UnsavedOf(s)[r := map[]] else UnsavedOf(s)
  {
    GoodPointers(s);
    hide Good;
    if s.held[r].Nothing? {
      OwnLogical(s, r);
      OwnRequests(s, r);
    }
  }

  lemma {:induction false} OwnRequests(s: State, r: Request)
    requires Pointers(s) && r in s.held && s.held[r].Nothing? && s.next !in s.nodes
    ensures
      var t := CheckNode(s, r);
      Pointers(t) && UsingOf(t) == UsingOf(s) && UnsavedOf(t) == UnsavedOf(s)[r := map[]]
  {
    var t := CheckNode(s, r);
    assert UsingOf(t) == UsingOf(s);
    hide UsingOf;
    assert UnsavedOf(t) == UnsavedOf(s)[r := map[]];
  }

  /** The refinement: cache, moving store and reference counts together behave like one map. */
  lemma {:induction false} Refines(s: State, step: Step)
    requires Good(s) && Enabled(s, step)
    ensures Good(Next(s, step)) && Pointers(s) && Pointers(Next(s, step))
    ensures AbstractOf(Next(s, step)) == AbstractNext(AbstractOf(s), step)
  {
    NextGood(s, step);
    GoodPointers(s);
    GoodPointers(Next(s, step));
    hide Good, Next, AbstractOf, AbstractNext;
    match step {
      case Before(r, id) => BeforeRefines(s, r, id);
      case Set(r, key, value) => SetRefines(s, r, key, value);
      case Remove(r, key) => RemoveRefines(s, r, key);
      case Refresh(r) => RefreshRefines(s, r);
      case After(r, generated) => AfterRefines(s, r, generated);
    }
  }

  lemma {:induction false} BeforeRefines(s: State, r: Request, id: string)
    requires Good(s) && r !in s.held && Pointers(s) && Pointers(Next(s, Before(r, id)))
    ensures AbstractOf(Next(s, Before(r, id))) == AbstractNext(AbstractOf(s), Before(r, id))
  {
    if id == "" || (id !in s.cache && id !in s.store) {
      GoodPointers(s);
      hide Good;
      RequestAdded(s, r, Nothing);
    } else if id in s.cache {
      SharedRefines(s, r, id);
    } else {
      LoadedRefines(s, r, id);
    }
  }

  lemma {:induction false} SharedRefines(s: State, r: Request, id: string)
    requires Good(s) && r !in s.held && id != "" && id in s.cache
    requires Pointers(s) && Pointers(Next(s, Before(r, id)))
    ensures AbstractOf(Next(s, Before(r, id))) == AbstractNext(AbstractOf(s), Before(r, id))
  {
    var ref := s.cache[id];
    var n := s.nodes[ref].(referrers := s.nodes[ref].referrers + 1);
    var t := s.(nodes := s.nodes[ref := n]);
    CachedUnder(s, ref);
    hide Good;
    CountedSame(s, id, n);
    RequestAdded(t, r, Holds(ref));
    hide Logical, UsingOf, UnsavedOf;
  }

  /** Counting another holder changes nothing a client sees. */
  lemma {:induction false} CountedSame(s: State, id: string, n: Node)
    requires Pointers(s) && id in s.cache && id in s.store && "" !in s.cache && id != ""
    requires n == s.nodes[s.cache[id]].(referrers := n.referrers) && n.sessionId == id
    requires forall x :: x in s.cache ==> (s.cache[x] == s.cache[id] <==> x == id)
    ensures Pointers(s.(nodes := s.nodes[s.cache[id] := n]))
    ensures AbstractOf(s.(nodes := s.nodes[s.cache[id] := n])) == AbstractOf(s)
    ensures id in Logical(s)
  {
    var t := s.(nodes := s.nodes[s.cache[id] := n]);
    NodeChanged(s, s.cache[id], n);
    assert Logical(s)[id := n.entries] == Logical(s);
    hide Logical;
    assert UnsavedOf(t) == UnsavedOf(s);
  }

  lemma {:induction false} LoadedRefines(s: State, r: Request, id: string)
    requires Good(s) && r !in s.held && id != "" && id !in s.cache && id in s.store
    requires Pointers(s) && Pointers(Next(s, Before(r, id)))
    ensures AbstractOf(Next(s, Before(r, id))) == AbstractNext(AbstractOf(s), Before(r, id))
  {
    var t := Next(s, Before(r, id));
    GoodPointers(s);
    LoadedLogical(s, r, id);
    hide Good;
    LoadedRequest(s, t, r, id, s.next);
  }

  lemma {:induction false} LoadedRequest(s: State, t: State, r: Request, id: string, ref: Ref)
    requires Pointers(s) && Pointers(t) && r !in s.held && ref !in s.nodes && id != "" && ref in t.nodes
    requires t.nodes == s.nodes[ref := t.nodes[ref]] && t.nodes[ref].sessionId == id && t.held == s.held[r := Holds(ref)]
    ensures UsingOf(t) == UsingOf(s)[r := id] && UnsavedOf(t) == UnsavedOf(s)
  {
  }

  lemma {:induction false} LoadedLogical(s: State, r: Request, id: string)
    requires Good(s) && r !in s.held && id != "" && id !in s.cache && id in s.store
    requires Pointers(s) && Pointers(Next(s, Before(r, id)))
    ensures Logical(Next(s, Before(r, id))) == Logical(s)
  {
    GoodPointers(s);
    hide Good;
  }

  lemma {:induction false} SetRefines(s: State, r: Request, key: string, value: MultiValue)
    requires Good(s) && r in s.held && Pointers(s) && Pointers(Next(s, Set(r, key, value)))
    ensures AbstractOf(Next(s, Set(r, key, value))) == AbstractNext(AbstractOf(s), Set(r, key, value))
  {
    if SessionOf(s, r) == "" {
      SetOwnRefines(s, r, key, value);
    } else {
      SetStoredRefines(s, r, key, value);
    }
  }

  lemma {:induction false} SetStoredRefines(s: State, r: Request, key: string, value: MultiValue)
    requires Good(s) && r in s.held && Pointers(s) && Pointers(Next(s, Set(r, key, value))) && SessionOf(s, r) != ""
    ensures AbstractOf(Next(s, Set(r, key, value))) == AbstractNext(AbstractOf(s), Set(r, key, value))
  {
    UsingHere(s, r);
    var n := s.nodes[s.held[r].ref];
    EditRefines(s, r, n.(dirty := n.dirty + {key}, entries := n.entries[key := value]));
    LogicalHere(s, r);
    hide Good, Logical, UsingOf, UnsavedOf;
  }

  lemma {:induction false} SetOwnRefines(s: State, r: Request, key: string, value: MultiValue)
    requires Good(s) && r in s.held && Pointers(s) && Pointers(Next(s, Set(r, key, value))) && SessionOf(s, r) == ""
    ensures AbstractOf(Next(s, Set(r, key, value))) == AbstractNext(AbstractOf(s), Set(r, key, value))
  {
    var u := CheckNode(s, r);
    CheckNodeGood(s, r);
    CheckNodeAbstract(s, r);
    SessionInLogical(s, r);
    UsingHere(s, r);
    OwnEntries(s, r);
    AbstractSetOwn(AbstractOf(s), AbstractOf(u), r, key, value);
    var n := u.nodes[u.held[r].ref];
    var edited := n.(dirty := n.dirty + {key}, entries := n.entries[key := value]);
    assert Next(s, Set(r, key, value)) == u.(nodes := u.nodes[u.held[r].ref := edited]);
    hide Good, CheckNode, Logical, UsingOf, UnsavedOf, Seen, Pointers, Next, AbstractNext;
    EditRefines(u, r, edited);
  }

  lemma AbstractSetOwn(a: Abstract, b: Abstract, r: Request, key: string, value: MultiValue)
    requires r in a.using && a.using[r] !in a.sessions
    requires b == a || b == a.(unsaved := a.unsaved[r := map[]])
    ensures AbstractNext(a, Set(r, key, value)) ==
            b.(unsaved := b.unsaved[r := (if r in a.unsaved then a.unsaved[r] else map[])[key := value]])
  {
  }

  /** The contents of a session without an id, after `check_node`. */
  lemma {:induction false} OwnEntries(s: State, r: Request)
    requires Pointers(s) && r in s.held && SessionOf(s, r) == "" && Pointers(CheckNode(s, r))
    ensures
      var n := CheckNode(s, r).nodes[CheckNode(s, r).held[r].ref];
      n.sessionId == "" && n.entries == if r in UnsavedOf(s) then UnsavedOf(s)[r] else map[]
  {
  }

  /** A request edits the session it holds. */
  lemma {:induction false} EditRefines(s: State, r: Request, n: Node)
    requires Good(s) && r in s.held && s.held[r].Holds? && s.held[r].ref in s.nodes && Pointers(s)
    requires n.sessionId == s.nodes[s.held[r].ref].sessionId
    ensures
      var t := s.(nodes := s.nodes[s.held[r].ref := n]);
      && Pointers(t)
      && AbstractOf(t) ==
         if n.sessionId == "" then AbstractOf(s).(unsaved := AbstractOf(s).unsaved[r := n.entries])
         else AbstractOf(s).(sessions := AbstractOf(s).sessions[n.sessionId := n.entries])
  {
    CachedUnder(s, s.held[r].ref);
    NodeChanged(s, s.held[r].ref, n);
    hide Good, Logical, UsingOf, Holders, UnsavedOf;
    if n.sessionId == "" { OwnEdited(s, r, n); } else { StoredEdited(s, r, n); }
  }

  /** An edit of a session of the request's own. */
  lemma {:induction false} OwnEdited(s: State, r: Request, n: Node)
    requires Good(s) && r in s.held && s.held[r].Holds? && s.held[r].ref in s.nodes && Pointers(s)
    requires n.sessionId == s.nodes[s.held[r].ref].sessionId == ""
    ensures UnsavedOf(s.(nodes := s.nodes[s.held[r].ref := n])) == UnsavedOf(s)[r := n.entries]
  {
    var ref := s.held[r].ref;
    var t := s.(nodes := s.nodes[ref := n]);
    OwnOnly(s, r);
    NodeChanged(s, ref, n);
    hide Good, Logical, UsingOf, Holders;
    assert r in UnsavedOf(s);
    hide UnsavedOf;
    OneEntry(UnsavedOf(s), UnsavedOf(t), r, n.entries);
  }

  /** An edit of a stored session. */
  lemma {:induction false} StoredEdited(s: State, r: Request, n: Node)
    requires r in s.held && s.held[r].Holds? && s.held[r].ref in s.nodes && Pointers(s)
    requires n.sessionId == s.nodes[s.held[r].ref].sessionId != ""
    ensures UnsavedOf(s.(nodes := s.nodes[s.held[r].ref := n])) == UnsavedOf(s)
  {
  }

  lemma {:induction false} OwnOnly(s: State, r: Request)
    requires Good(s) && r in s.held && s.held[r].Holds? && s.held[r].ref in s.nodes
    requires s.nodes[s.held[r].ref].sessionId == ""
    ensures forall q :: q in s.held && s.held[q] == s.held[r] ==> q == r
  {
    CachedUnder(s, s.held[r].ref);
    hide Good;
    forall q | q in s.held && s.held[q] == s.held[r]
      ensures q == r
    {
      OnlyHolder(s, r, q);
    }
  }

  lemma OneEntry(before: map<Request, Entries>, after: map<Request, Entries>, r: Request, e: Entries)
    requires after.Keys == before.Keys && r in before
    requires forall q :: q in after ==> after[q] == if q == r then e else before[q]
    ensures after == before[r := e]
  {
  }

  lemma SessionInLogical(s: State, r: Request)
    requires Good(s) && r in s.held
    ensures Pointers(s) && (SessionOf(s, r) in Logical(s) <==> SessionOf(s, r) != "")
  {
    GoodPointers(s);
    if SessionOf(s, r) != "" { SeenIsLogical(s, r); }
  }

  lemma UnsavedHere(s: State, r: Request)
    requires Pointers(s) && r in s.held && s.held[r].Holds? && s.nodes[s.held[r].ref].sessionId == ""
    ensures r in UnsavedOf(s) && UnsavedOf(s)[r] == s.nodes[s.held[r].ref].entries
  {
  }

  lemma LogicalHere(s: State, r: Request)
    requires Good(s) && r in s.held && s.held[r].Holds? && SessionOf(s, r) != ""
    ensures SessionOf(s, r) in Logical(s) && Logical(s)[SessionOf(s, r)] == s.nodes[s.held[r].ref].entries
  {
    SeenIsLogical(s, r);
  }

  lemma UsingHere(s: State, r: Request)
    requires Pointers(s) && r in s.held
    ensures r in UsingOf(s) && UsingOf(s)[r] == SessionOf(s, r)
  {
  }

  lemma {:induction false} RemoveRefines(s: State, r: Request, key: string)
    requires Good(s) && r in s.held && Pointers(s) && Pointers(Next(s, Remove(r, key)))
    ensures AbstractOf(Next(s, Remove(r, key))) == AbstractNext(AbstractOf(s), Remove(r, key))
  {
    SessionInLogical(s, r);
    UsingHere(s, r);
    if s.held[r].Holds? {
      var ref := s.held[r].ref;
      var n := s.nodes[ref].(dirty := s.nodes[ref].dirty + {key}, entries := s.nodes[ref].entries - {key});
      EditRefines(s, r, n);
      if n.sessionId == "" { UnsavedHere(s, r); } else { LogicalHere(s, r); }
      hide Good, Logical, UsingOf, UnsavedOf;
    } else {
      assert r !in UnsavedOf(s);
      hide Good, Logical, UsingOf, UnsavedOf;
    }
  }

  lemma {:induction false} RefreshRefines(s: State, r: Request)
    requires Good(s) && r in s.held && Pointers(s) && Pointers(Next(s, Refresh(r)))
    ensures AbstractOf(Next(s, Refresh(r))) == AbstractNext(AbstractOf(s), Refresh(r))
  {
    if s.held[r].Holds? {
      var ref := s.held[r].ref;
      var n := s.nodes[ref].(requestedRefresh := true);
      EditRefines(s, r, n);
      hide Good, Logical, UsingOf, UnsavedOf, Pointers;
      if n.sessionId == "" {
        UnsavedHere(s, r);
        assert UnsavedOf(s)[r := n.entries] == UnsavedOf(s);
      } else {
        LogicalHere(s, r);
        assert Logical(s)[n.sessionId := n.entries] == Logical(s);
      }
    }
  }

  lemma {:induction false} AfterRefines(s: State, r: Request, generated: string)
    requires Good(s) && Enabled(s, After(r, generated)) && Pointers(s) && Pointers(Next(s, After(r, generated)))
    ensures AbstractOf(Next(s, After(r, generated))) == AbstractNext(AbstractOf(s), After(r, generated))
  {
    var t := Next(s, After(r, generated));
    RequestRemoved(s, r);
    if s.held[r].Nothing? {
      assert r !in UnsavedOf(s);
    } else {
      var ref := s.held[r].ref;
      CachedUnder(s, ref);
      if s.nodes[ref].referrers > 1 {
        var n := s.nodes[ref].(referrers := s.nodes[ref].referrers - 1);
        EditRefines(s, r, n);
        LogicalHere(s, r);
        RequestRemoved(s.(nodes := s.nodes[ref := n]), r);
        assert r !in UnsavedOf(s);
        hide Good, Logical, UsingOf, UnsavedOf;
      } else {
        LastRefines(s, r, generated);
      }
    }
  }

  lemma {:induction false} LastRefines(s: State, r: Request, generated: string)
    requires Good(s) && Enabled(s, After(r, generated)) && Pointers(s) && Pointers(Next(s, After(r, generated)))
    requires s.held[r].Holds? && s.nodes[s.held[r].ref].referrers <= 1
    ensures AbstractOf(Next(s, After(r, generated))) == AbstractNext(AbstractOf(s), After(r, generated))
  {
    var t := Next(s, After(r, generated));
    var ref := s.held[r].ref;
    var n := s.nodes[ref];
    CachedUnder(s, ref);
    GoodPointers(s);
    hide Good;
    LastLogical(s, r, generated);
    LastRequest(s, t, r);
  }

  lemma {:induction false} LastRequest(s: State, t: State, r: Request)
    requires Pointers(s) && Pointers(t) && r in s.held && s.held[r].Holds?
    requires t.nodes == s.nodes - {s.held[r].ref} && t.held == s.held - {r}
    ensures UsingOf(t) == UsingOf(s) - {r} && UnsavedOf(t) == UnsavedOf(s) - {r}
  {
  }

  lemma {:induction false} LastLogical(s: State, r: Request, generated: string)
    requires Good(s) && Enabled(s, After(r, generated)) && Pointers(s) && Pointers(Next(s, After(r, generated)))
    requires s.held[r].Holds? && s.nodes[s.held[r].ref].referrers <= 1
    ensures
      var n := s.nodes[s.held[r].ref];
      Logical(Next(s, After(r, generated))) ==
      if n.sessionId == "" then Logical(s)[generated := n.entries] else Logical(s)
  {
    CachedUnder(s, s.held[r].ref);
    GoodPointers(s);
    hide Good;
    var t := Next(s, After(r, generated));
    if s.nodes[s.held[r].ref].sessionId == "" {
      NewInStore(s, t, s.held[r].ref, generated);
    } else {
      BackInStore(s, t, s.held[r].ref);
    }
  }

  lemma {:induction false} NewInStore(s: State, t: State, ref: Ref, id: string)
    requires Pointers(s) && Pointers(t) && ref in s.nodes && id !in s.cache
    requires t.nodes == s.nodes - {ref} && t.cache == s.cache && t.store == s.store[id := s.nodes[ref].entries]
    ensures Logical(t) == Logical(s)[id := s.nodes[ref].entries]
  {
  }

  lemma {:induction false} BackInStore(s: State, t: State, ref: Ref)
    requires Pointers(s) && Pointers(t) && ref in s.nodes
    requires s.nodes[ref].sessionId in s.cache && s.cache[s.nodes[ref].sessionId] == ref
    requires t.nodes == s.nodes - {ref} && t.cache == s.cache - {s.nodes[ref].sessionId}
    requires s.nodes[ref].sessionId in s.store && t.store == s.store[s.nodes[ref].sessionId := s.nodes[ref].entries]
    ensures Logical(t) == Logical(s)
  {
  }

  // ---------------------------------------------------------------- whole runs

  ghost predicate Possible(s: State, steps: seq<Step>)
    requires Good(s)
    decreases |steps|
  {
    steps == [] ||
    (Enabled(s, steps[0]) && (NextGood(s, steps[0]); Possible(Next(s, steps[0]), steps[1..])))
  }

  ghost function Run(s: State, steps: seq<Step>): (t: State)
    requires Good(s) && Possible(s, steps)
    ensures Good(t)
    decreases |steps|
  {
    if steps == [] then s else (NextGood(s, steps[0]); Run(Next(s, steps[0]), steps[1..]))
  }

  function AbstractRun(a: Abstract, steps: seq<Step>): Abstract
    decreases |steps|
  {
    if steps == [] then a else AbstractRun(AbstractNext(a, steps[0]), steps[1..])
  }

  /** No request, nothing cached. */
  function Initial(sessions: map<string, Entries>): (s: State)
    ensures "" !in sessions ==> Good(s)
  {
    State(map[], 0, map[], sessions, map[], map[], [])
  }

  /** Every interleaving of requests: the counts are right, loads and saves alternate, and all sets
      and removes have taken effect in order, on one map. */
  lemma {:induction false} EveryRun(sessions: map<string, Entries>, steps: seq<Step>)
    requires "" !in sessions && Possible(Initial(sessions), steps)
    ensures
      var t := Run(Initial(sessions), steps);
      && Good(t) && Pointers(t) && Alternates(t.history)
      && AbstractOf(t) == AbstractRun(Abstract(sessions, map[], map[]), steps)
      && forall id :: id in t.cache ==> t.nodes[t.cache[id]].referrers == |Holders(t, t.cache[id])| > 0
  {
    var s := Initial(sessions);
    RunRefines(s, steps);
    assert Logical(s) == sessions;
    assert AbstractOf(s) == Abstract(sessions, map[], map[]);
    var t := Run(s, steps);
    forall id | id in t.cache
      ensures t.nodes[t.cache[id]].referrers == |Holders(t, t.cache[id])| > 0
    {
      assert NodeGood(t, t.cache[id]);
    }
  }

  lemma {:induction false} RunRefines(s: State, steps: seq<Step>)
    requires Good(s) && Possible(s, steps)
    ensures Pointers(s) && Pointers(Run(s, steps))
    ensures AbstractOf(Run(s, steps)) == AbstractRun(AbstractOf(s), steps)
    decreases |steps|
  {
    GoodPointers(s);
    if steps != [] {
      NextGood(s, steps[0]);
      Refines(s, steps[0]);
      RunRefines(Next(s, steps[0]), steps[1..]);
    }
  }

  /** A store may skip the save of a session in which nothing is marked dirty. */
  lemma CleanIsUnchanged(s: State, ref: Ref)
    requires Good(s) && ref in s.nodes && s.nodes[ref].dirty == {}
    ensures s.nodes[ref].entries == s.loaded[ref]
  {
    assert NodeGood(s, ref);
    var a, b := s.nodes[ref].entries, s.loaded[ref];
    forall k
      ensures Same(a, b, k)
    {
      assert k !in s.nodes[ref].dirty;
    }
    assert forall k :: k in a <==> k in b by {
      forall k ensures k in a <==> k in b { assert Same(a, b, k); }
    }
    forall k | k in a
      ensures a[k] == b[k]
    {
      assert Same(a, b, k);
    }
  }

  /** Alternation, seen from one id: between two loads of it there is a save of it. */
  lemma {:induction false} SaveBetweenLoads(history: seq<Event>, i: nat, j: nat)
    requires Alternates(history) && i < j < |history|
    requires history[i].Load? && history[j].Load? && history[i].id == history[j].id
    ensures exists k :: i < k < j && history[k] == Save(history[i].id)
  {
    var n := |history| - 1;
    if j < n {
      SaveBetweenLoads(history[..n], i, j);
      var k :| i < k < j && history[..n][k] == Save(history[..n][i].id);
      assert history[k] == Save(history[i].id);
    } else {
      LastSince(history[..n], i);
      var k :| i < k < n && history[..n][k] == Save(history[..n][i].id);
      assert history[k] == Save(history[i].id);
    }
  }

  lemma {:induction false} LastSince(history: seq<Event>, i: nat)
    requires i < |history| && history[i].Load? && LastOf(history, history[i].id) != Loaded
    ensures exists k :: i < k < |history| && history[k] == Save(history[i].id)
  {
    var n := |history| - 1;
    if history[n].id == history[i].id {
      assert i < n && history[n] == Save(history[i].id);
    } else {
      LastSince(history[..n], i);
      var k :| i < k < n && history[..n][k] == Save(history[..n][i].id);
      assert history[k] == Save(history[i].id);
    }
  }
}
