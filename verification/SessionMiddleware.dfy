/** The session middleware as it updates its cache, its shared sessions and its store; every method
    body runs under the lock. */
module SessionMiddleware {
  import opened Sessions

  /** `InMemoryStore`: loading moves the entries out and leaves an empty record behind. */
  class InMemoryStore {
    var entries: map<string, Entries>
    ghost var history: seq<Event>

    constructor (initial: map<string, Entries>)
      ensures entries == initial && history == []
    {
      entries, history := initial, [];
    }

    /** Moving is safe because no session is loaded twice without a save in between. */
    method LoadEntries(id: string) returns (loaded: Entries)
      requires id in entries && LastOf(history, id) != Loaded
      modifies this
      ensures loaded == old(entries[id])
      ensures entries == old(entries)[id := map[]] && history == old(history) + [Load(id)]
    {
      loaded := entries[id];
      entries := entries[id := map[]];
      history := history + [Load(id)];
    }

    method SaveEntries(id: string, saved: Entries)
      requires LastOf(history, id) != Saved
      modifies this
      ensures entries == old(entries)[id := saved] && history == old(history) + [Save(id)]
    {
      entries := entries[id := saved];
      history := history + [Save(id)];
    }

    predicate Contains(id: string)
      reads this
    {
      id in entries
    }
  }

  class Middleware {
    const store: InMemoryStore
    /** The shared sessions, by pointer. */
    var nodes: map<Ref, Node>
    var next: Ref
    var cache: map<string, Ref>
    /** What the context of each request in flight points to. */
    var held: map<Request, Holding>
    ghost var loaded: map<Ref, Entries>

    ghost function View(): State
      reads this, store
    {
      State(nodes, next, cache, store.entries, held, loaded, store.history)
    }

    constructor (sessions: map<string, Entries>)
      requires "" !in sessions
      ensures View() == Initial(sessions) && Good(View()) && fresh(store)
    {
      store := new InMemoryStore(sessions);
      nodes, next, cache, held, loaded := map[], 0, map[], map[], map[];
      new;
    }

    /** `std::make_shared<CachedSession>()` */
    method NewNode(n: Node, ghost from: Entries) returns (ref: Ref)
      modifies this`nodes, this`next, this`loaded
      ensures ref == old(next) && next == ref + 1
      ensures nodes == old(nodes)[ref := n] && loaded == old(loaded)[ref := from]
    {
      ref := next;
      next := next + 1;
      nodes := nodes[ref := n];
      loaded := loaded[ref := from];
    }

    method BeforeHandle(r: Request, sessionId: string)
      requires Good(View()) && Enabled(View(), Before(r, sessionId))
      modifies this, store
      ensures View() == Next(old(View()), Before(r, sessionId)) && Good(View())
    {
      NextGood(View(), Before(r, sessionId));
      BeforeOutcome(View(), r, sessionId);
      hide Good, Next, LastOf, Alternates, Enabled;
      if sessionId == "" {
        held := held[r := Nothing];
      } else if sessionId in cache {
        ShareSession(r, sessionId);
      } else if !store.Contains(sessionId) {
        held := held[r := Nothing];
      } else {
        LoadSession(r, sessionId);
      }
    }

    /** A request comes to a cached session. */
    method ShareSession(r: Request, sessionId: string)
      requires Good(View()) && Enabled(View(), Before(r, sessionId)) && sessionId != "" && sessionId in cache
      modifies this
      ensures View() == Next(old(View()), Before(r, sessionId))
    {
      BeforeOutcome(View(), r, sessionId);
      hide Good, Next;
      var ref := cache[sessionId];
      nodes := nodes[ref := nodes[ref].(referrers := nodes[ref].referrers + 1)];
      held := held[r := Holds(ref)];
    }

    /** A session that is stored and not cached is loaded and cached. */
    method LoadSession(r: Request, sessionId: string)
      requires Good(View()) && Enabled(View(), Before(r, sessionId))
      requires sessionId != "" && sessionId !in cache && sessionId in store.entries
      modifies this, store
      ensures View() == Next(old(View()), Before(r, sessionId))
    {
      NotOut(View(), sessionId);
      hide Good, LastOf, Alternates;
      ghost var s := View();
      var entries := store.LoadEntries(sessionId);
      var ref := NewNode(Node(sessionId, entries, {}, false, 1), entries);
      held := held[r := Holds(ref)];
      cache := cache[sessionId := ref];
      assert View() == Next(s, Before(r, sessionId));
    }

    /** `context::set`, under the lock of the session. */
    method SetValue(r: Request, key: string, value: MultiValue)
      requires Good(View()) && Enabled(View(), Set(r, key, value))
      modifies this
      ensures View() == Next(old(View()), Set(r, key, value)) && Good(View())
    {
      NextGood(View(), Set(r, key, value));
      CheckNodeGood(View(), r);
      hide Good;
      OwnNode(r);
      var n := nodes[held[r].ref];
      n := n.(dirty := n.dirty + {key});
      n := n.(entries := n.entries[key := value]);
      nodes := nodes[held[r].ref := n];
    }

    /** `check_node` */
    method OwnNode(r: Request)
      requires r in held
      modifies this
      ensures View() == CheckNode(old(View()), r)
    {
      if held[r].Nothing? {
        var ref := NewNode(Node("", map[], {}, false, 0), map[]);
        held := held[r := Holds(ref)];
      }
    }

    /** `context::remove` */
    method RemoveValue(r: Request, key: string)
      requires Good(View()) && Enabled(View(), Remove(r, key))
      modifies this
      ensures View() == Next(old(View()), Remove(r, key)) && Good(View())
    {
      NextGood(View(), Remove(r, key));
      if held[r].Nothing? { return; }
      var n := nodes[held[r].ref];
      n := n.(dirty := n.dirty + {key});
      n := n.(entries := n.entries - {key});
      nodes := nodes[held[r].ref := n];
    }

    /** `context::get`: what the specification's map holds at this moment. */
    method GetValue(r: Request, key: string, fallback: MultiValue) returns (value: MultiValue)
      requires Good(View()) && r in held
      ensures value == if key in Seen(View(), r) then Seen(View(), r)[key] else fallback
    {
      if held[r].Nothing? { return fallback; }
      var entries := nodes[held[r].ref].entries;
      return if key in entries then entries[key] else fallback;
    }

    /** `context::refresh_expiration` */
    method RefreshExpiration(r: Request)
      requires Good(View()) && Enabled(View(), Refresh(r))
      modifies this
      ensures View() == Next(old(View()), Refresh(r)) && Good(View())
    {
      NextGood(View(), Refresh(r));
      if held[r].Nothing? { return; }
      nodes := nodes[held[r].ref := nodes[held[r].ref].(requestedRefresh := true)];
    }

    /** `after_handle`: the last request to leave saves the session. The cookie is set for a new
        session and on request. */
    method AfterHandle(r: Request, generated: string) returns (cookie: string)
      requires Good(View()) && Enabled(View(), After(r, generated))
      modifies this, store
      ensures View() == Next(old(View()), After(r, generated)) && Good(View())
      ensures cookie == Cookie(old(View()), After(r, generated))
    {
      ghost var s := View();
      NextGood(s, After(r, generated));
      if held[r].Holds? { HeldIsNode(s, r); }
      hide Good, LastOf, Alternates, Next, Cookie;
      if held[r].Nothing? {
        LeavesNothing(s, r, generated);
        held := held - {r};
        return "";
      }
      if nodes[held[r].ref].referrers - 1 > 0 {
        LeavesShared(s, r, generated);
        Unshare(r);
        return "";
      }
      cookie := SaveSession(r, generated);
    }

    /** One of several requests leaves. */
    method Unshare(r: Request)
      requires r in held && held[r].Holds? && held[r].ref in nodes && nodes[held[r].ref].referrers > 1
      modifies this
      ensures
        var s := old(View());
        var ref := s.held[r].ref;
        View() == s.(nodes := s.nodes[ref := s.nodes[ref].(referrers := s.nodes[ref].referrers - 1)], held := s.held - {r})
    {
      var ref := held[r].ref;
      nodes := nodes[ref := nodes[ref].(referrers := nodes[ref].referrers - 1)];
      held := held - {r};
    }

    /** The last request leaves: the session gets its id if it has none, and is saved. */
    method SaveSession(r: Request, generated: string) returns (cookie: string)
      requires Good(View()) && Enabled(View(), After(r, generated))
      requires held[r].Holds? && held[r].ref in nodes && nodes[held[r].ref].referrers <= 1
      modifies this, store
      ensures View() == Next(old(View()), After(r, generated))
      ensures cookie == Cookie(old(View()), After(r, generated))
    {
      ghost var s := View();
      var ref := held[r].ref;
      LastLeaves(s, ref);
      hide Good, LastOf, Alternates;
      var n := nodes[ref];
      n := n.(referrers := n.referrers - 1, requestedRefresh := n.requestedRefresh || n.sessionId == "");
      if n.sessionId == "" {
        n := n.(sessionId := generated);
      } else {
        cache := cache - {n.sessionId};
      }
      cookie := if n.requestedRefresh then n.sessionId else "";
      store.SaveEntries(n.sessionId, n.entries);
      // the pointer of the context was the last one
      nodes := nodes - {ref};
      loaded := loaded - {ref};
      held := held - {r};
      assert View() == Next(s, After(r, generated));
    }
  }

  lemma LeavesNothing(s: State, r: Request, generated: string)
    requires Good(s) && Enabled(s, After(r, generated)) && s.held[r].Nothing?
    ensures Next(s, After(r, generated)) == s.(held := s.held - {r}) && Cookie(s, After(r, generated)) == ""
  {
  }

  lemma LeavesShared(s: State, r: Request, generated: string)
    requires Good(s) && Enabled(s, After(r, generated)) && s.held[r].Holds?
    requires s.held[r].ref in s.nodes && s.nodes[s.held[r].ref].referrers > 1
    ensures
      var ref := s.held[r].ref;
      Next(s, After(r, generated)) ==
      s.(nodes := s.nodes[ref := s.nodes[ref].(referrers := s.nodes[ref].referrers - 1)], held := s.held - {r})
    ensures Cookie(s, After(r, generated)) == ""
  {
  }

  /** A request comes in, and nothing has to be loaded. */
  lemma {:induction false} BeforeOutcome(s: State, r: Request, id: string)
    requires Good(s) && r !in s.held
    ensures id == "" || (id !in s.cache && id !in s.store) ==>
              Next(s, Before(r, id)) == s.(held := s.held[r := Nothing])
    ensures id != "" && id in s.cache ==>
              var ref := s.cache[id];
              && ref in s.nodes
              && Next(s, Before(r, id)) ==
                 s.(nodes := s.nodes[ref := s.nodes[ref].(referrers := s.nodes[ref].referrers + 1)],
                    held := s.held[r := Holds(ref)])
  {
    assert Linked(s);
    hide Good;
  }

  lemma HeldIsNode(s: State, r: Request)
    requires Good(s) && r in s.held && s.held[r].Holds?
    ensures s.held[r].ref in s.nodes
  {
  }

  lemma NotOut(s: State, id: string)
    requires Good(s) && id !in s.cache
    ensures LastOf(s.history, id) != Loaded
  {
  }

  /** The session a request leaves is out of the store, or was never in it. */
  lemma LastLeaves(s: State, ref: Ref)
    requires Good(s) && ref in s.nodes
    ensures s.nodes[ref].sessionId != "" ==> LastOf(s.history, s.nodes[ref].sessionId) == Loaded
    ensures s.nodes[ref].sessionId == "" ==> s.nodes[ref].referrers == 0
    ensures forall id :: id !in s.store ==> LastOf(s.history, id).Never?
  {
    assert NodeGood(s, ref);
  }
}
