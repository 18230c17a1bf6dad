/** Shallow snapshots that are reported as fresh, over every run of `CachedListing`. */
module CacheFreshness {
  import opened Listing
  import opened CachePaths
  import opened DirectoryCache
  import opened CachedListing
  import opened CacheAgreement

  // ---- Snapshots reported as fresh ----

  /** The context that a snapshot below the context link lists does not drift. */
  predicate Calm(s: State, e: Event, r: nat) {
    r in s.readers && UsesContextLink(s.readers[r].path) && e.Drift? ==> e.root != s.readers[r].first
  }

  ghost predicate Undisturbed(states: seq<State>, events: seq<Event>, r: nat)
    requires |states| == |events| + 1
  {
    forall k :: 0 <= k < |events| ==> Calm(states[k], events[k], r)
  }

  /** What a snapshot holds is current while generation and identity are those it read first. */
  ghost predicate Fresh(s: State, lister: Lister, reader: Reader) {
    var tree := Sight(s, reader.root, reader.path);
    reader.root == reader.first && reader.since == Gen(s, reader.first)
    && reader.firstIdentity == Identity(s, reader.first) ==>
      && (reader.pc.Reading? ==> Steady(reader.pc.seen, tree))
      && (reader.pc.Storing? || reader.pc.Checking? ==> reader.pc.entries == lister.list(tree, Where(reader.path)))
  }

  lemma LookupFresh(s: State, lister: Lister, reader: Reader)
    requires Agrees(s, lister, reader.first, reader.path)
    ensures Fresh(s, lister, reader.(pc := AfterLookup(s, reader)))
  {}

  lemma OwnFresh(s: State, lister: Lister, e: Event)
    requires Faithful(lister) && Enabled(s, lister, e) && AboutReader(e)
    requires !e.Begin? ==> Fresh(s, lister, s.readers[e.r]) && Behind(s, s.readers[e.r])
    requires e.Lookup? ==> Agrees(s, lister, s.readers[e.r].first, s.readers[e.r].path)
    ensures Fresh(s, lister, ReaderAfter(s, lister, e))
  {
    if e.Lookup? { LookupFresh(s, lister, s.readers[e.r]); }
  }

  lemma OthersFresh(s: State, lister: Lister, e: Event, reader: Reader)
    requires Enabled(s, lister, e) && Behind(s, reader) && Fresh(s, lister, reader)
    requires e.Drift? && UsesContextLink(reader.path) ==> e.root != reader.first
    ensures Fresh(Apply(s, lister, e), lister, reader)
  {}

  /** A call of this path under this root, in a state whose entry is right. */
  ghost predicate Backed(s: State, lister: Lister, root: string, path: string, r: nat) {
    && Agrees(s, lister, root, path)
    && (r in s.readers ==> Behind(s, s.readers[r]) && s.readers[r].first == root && s.readers[r].path == path)
  }

  lemma FreshKept(s: State, lister: Lister, e: Event, t: State, root: string, path: string, r: nat)
    requires Faithful(lister) && IsStep(lister, s, e, t) && Backed(s, lister, root, path, r) && Calm(s, e, r)
    requires r in s.readers ==> Fresh(s, lister, s.readers[r])
    ensures r in t.readers ==> Fresh(t, lister, t.readers[r])
  {
    if AboutReader(e) && e.r == r {
      OwnFresh(s, lister, e);
      OwnBehind(s, lister, e);
      OthersFresh(s, lister, e, ReaderAfter(s, lister, e));
    } else if r in s.readers {
      OthersFresh(s, lister, e, s.readers[r]);
    }
  }

  lemma SameCall(s: State, lister: Lister, e: Event, r: nat)
    requires Enabled(s, lister, e) && r in s.readers
    ensures r in Apply(s, lister, e).readers
    ensures Apply(s, lister, e).readers[r].path == s.readers[r].path
    ensures Apply(s, lister, e).readers[r].first == s.readers[r].first
    ensures Apply(s, lister, e).readers[r].name == s.readers[r].name
    ensures Apply(s, lister, e).readers[r].firstIdentity == s.readers[r].firstIdentity
    ensures Apply(s, lister, e).readers[r].since == s.readers[r].since
  {}

  lemma StateOk(lister: Lister, states: seq<State>, events: seq<Event>, root: string, path: string,
                listed: Paths, announced: Paths, i: nat)
    requires Spoken(lister, states, events, root, path, listed, announced) && Compatible(listed, announced)
    requires Faithful(lister) && listed(path) && Initial(states[0]) && i < |states|
    ensures ReadersOk(states[i], listed) && Agrees(states[i], lister, root, path)
  {
    RunReaders(lister, states, events, listed, announced, i);
    if Cacheable(path) { RunInv(lister, states, events, root, path, listed, announced, i); }
  }

  lemma {:induction false} RunFresh(lister: Lister, states: seq<State>, events: seq<Event>, root: string, path: string,
                                    r: nat, i: nat)
    requires Steps(lister, states, events) && states[0].readers == map[] && Undisturbed(states, events, r)
    requires Faithful(lister) && (forall k :: 0 <= k < |states| ==> Backed(states[k], lister, root, path, r))
    requires i < |states|
    ensures r in states[i].readers ==> Fresh(states[i], lister, states[i].readers[r])
  {
    if i > 0 {
      RunFresh(lister, states, events, root, path, r, i - 1);
      assert IsStep(lister, states[i - 1], events[i - 1], states[i]);
      FreshKept(states[i - 1], lister, events[i - 1], states[i], root, path, r);
    }
  }

  /** A call keeps its path and the root it resolved first. */
  lemma {:induction false} CallStays(lister: Lister, states: seq<State>, events: seq<Event>, r: nat, i: nat, n: nat)
    requires Steps(lister, states, events) && i <= n < |states| && r in states[i].readers
    ensures r in states[n].readers && states[n].readers[r].path == states[i].readers[r].path
    ensures states[n].readers[r].first == states[i].readers[r].first
    decreases n - i
  {
    if i < n {
      CallStays(lister, states, events, r, i, n - 1);
      assert IsStep(lister, states[n - 1], events[n - 1], states[n]);
      SameCall(states[n - 1], lister, events[n - 1], r);
    }
  }

  /**
   A shallow snapshot reported as fresh lists what it was asked for at the instant of its last generation check, if its
   two resolutions of the root agree and, for a listing below the context link, the context did not drift.
   */
  lemma FreshShallowSnapshot(lister: Lister, states: seq<State>, events: seq<Event>, root: string, path: string,
                             listed: Paths, announced: Paths, r: nat)
    requires Spoken(lister, states, events, root, path, listed, announced) && Compatible(listed, announced)
    requires Faithful(lister) && listed(path) && Initial(states[0]) && Undisturbed(states, events, r)
    requires Enabled(states[|events|], lister, Check(r))
    requires var reader := states[|events|].readers[r]; reader.first == reader.root == root && reader.path == path
    ensures var s := states[|events|];
            var after := Apply(s, lister, Check(r)).readers[r];
            after.pc.isFresh ==> after.pc.entries == lister.list(Sight(s, root, path), Where(path))
  {
    var n := |events|;
    forall k | 0 <= k < |states| ensures Backed(states[k], lister, root, path, r) {
      StateOk(lister, states, events, root, path, listed, announced, k);
      if r in states[k].readers { CallStays(lister, states, events, r, k, n); }
    }
    RunFresh(lister, states, events, root, path, r, n);
  }

  // ---- What every snapshot has checked ----

  /** What a call took from the state it began in. */
  lemma {:induction false} Began(lister: Lister, states: seq<State>, events: seq<Event>, n: nat,
                                 r: nat) returns (i: nat)
    requires Steps(lister, states, events) && states[0].readers == map[] && n < |states| && r in states[n].readers
    ensures var reader := states[n].readers[r];
            && i < n && events[i] == Begin(r, reader.name, reader.path) && Listable(reader.path)
            && reader.first == Canonical(states[i], reader.name)
            && reader.firstIdentity == Identity(states[i], reader.first)
            && reader.since == Gen(states[i], reader.first)
  {
    assert n > 0;
    var s, e := states[n - 1], events[n - 1];
    assert IsStep(lister, s, e, states[n]);
    if r in s.readers {
      i := Began(lister, states, events, n - 1, r);
      SameCall(s, lister, e, r);
    } else {
      i := n - 1;
    }
  }

  predicate Announces(e: Event, root: string) { e.Change? && e.root == root }

  lemma {:induction false} GenerationCounts(lister: Lister, states: seq<State>, events: seq<Event>, i: nat, n: nat,
                                            root: string)
    requires Steps(lister, states, events) && i <= n < |states|
    ensures Gen(states[i], root) <= Gen(states[n], root)
    ensures Gen(states[i], root) == Gen(states[n], root) <==> forall m :: i <= m < n ==> !Announces(events[m], root)
    decreases n - i
  {
    if i < n {
      GenerationCounts(lister, states, events, i, n - 1, root);
      assert IsStep(lister, states[n - 1], events[n - 1], states[n]);
      GenerationStep(states[n - 1], lister, events[n - 1], root);
      if forall m :: i <= m < n - 1 ==> !Announces(events[m], root) {
        assert (forall m :: i <= m < n ==> !Announces(events[m], root)) <==> !Announces(events[n - 1], root);
      }
    }
  }

  lemma GenerationStep(s: State, lister: Lister, e: Event, root: string)
    requires Enabled(s, lister, e)
    ensures Gen(Apply(s, lister, e), root) == Gen(s, root) + if Announces(e, root) then 1 else 0
  {}

  /** A snapshot is reported as fresh if and only if no change of its root was announced since the call began. */
  lemma FreshTold(lister: Lister, states: seq<State>, events: seq<Event>, r: nat) returns (i: nat)
    requires Steps(lister, states, events) && states[0].readers == map[] && Enabled(states[|events|], lister, Check(r))
    ensures var reader := states[|events|].readers[r];
            && i < |events| && events[i] == Begin(r, reader.name, reader.path)
            && reader.first == Canonical(states[i], reader.name)
            && (Apply(states[|events|], lister, Check(r)).readers[r].pc.isFresh <==>
                forall m :: i <= m < |events| ==> !Announces(events[m], reader.first))
  {
    i := Began(lister, states, events, |events|, r);
    GenerationCounts(lister, states, events, i, |events|, states[|events|].readers[r].first);
  }

  /** The name led to this directory at state `m`, when this step was taken. */
  ghost predicate LedTo(states: seq<State>, events: seq<Event>, m: nat, e: Event, name: string, root: string,
                        identity: nat)
    requires |states| == |events| + 1
  {
    m < |events| && events[m] == e && Canonical(states[m], name) == root && Identity(states[m], root) == identity
  }

  /** Whatever is about to be stored was read while the name led to the directory it was opened under. */
  lemma {:induction false} StoredIsChecked(lister: Lister, states: seq<State>, events: seq<Event>, n: nat,
                                           r: nat) returns (m: nat)
    requires Steps(lister, states, events) && states[0].readers == map[] && n < |states| && r in states[n].readers
    requires states[n].readers[r].pc.Storing?
    ensures var reader := states[n].readers[r];
            m < n && LedTo(states, events, m, FinishRead(r), reader.name, reader.root, reader.identity)
  {
    assert n > 0;
    assert IsStep(lister, states[n - 1], events[n - 1], states[n]);
    if events[n - 1] == FinishRead(r) {
      m := n - 1;
    } else {
      assert states[n - 1].readers[r] == states[n].readers[r];
      m := StoredIsChecked(lister, states, events, n - 1, r);
    }
  }

  /** Whatever has been returned was checked against the directory that was resolved first. */
  lemma {:induction false} ReturnedIsChecked(lister: Lister, states: seq<State>, events: seq<Event>, n: nat,
                                             r: nat) returns (m: nat)
    requires Steps(lister, states, events) && states[0].readers == map[] && n < |states| && r in states[n].readers
    requires states[n].readers[r].pc.Returned?
    ensures var reader := states[n].readers[r];
            m < n && LedTo(states, events, m, Check(r), reader.name, reader.first, reader.firstIdentity)
  {
    assert n > 0;
    assert IsStep(lister, states[n - 1], events[n - 1], states[n]);
    if events[n - 1] == Check(r) {
      m := n - 1;
    } else {
      assert states[n - 1].readers[r] == states[n].readers[r];
      m := ReturnedIsChecked(lister, states, events, n - 1, r);
    }
  }

  /** No call lists git metadata, and what the context link leads to is listed under the link's own name only. */
  lemma ReadersAdmitted(lister: Lister, states: seq<State>, events: seq<Event>, n: nat, r: nat)
    requires Steps(lister, states, events) && states[0].readers == map[] && n < |states| && r in states[n].readers
    ensures var path := states[n].readers[r].path;
            && Resolves(path) && ".git" !in Resolve(path).value
            && ([".my-context"] <= Resolve(path).value ==> path != "" && path[0] != '/')
            && (UsesContextLink(path) <==> [".my-context"] <= Resolve(path).value)
  {
    var i := Began(lister, states, events, n, r);
    var path := states[n].readers[r].path;
    if [".my-context"] <= Resolve(path).value {
      assert Resolve(path).value[0] == ".my-context" && path != "";
    }
  }

  /** A lookup takes the entry if there is one, and otherwise has the directory read at the current generation. */
  lemma LookupExactly(s: State, lister: Lister, r: nat)
    requires Enabled(s, lister, Lookup(r))
    ensures var reader, after := s.readers[r], Apply(s, lister, Lookup(r)).readers[r].pc;
            var key := NormalizeCachePath(reader.path);
            if Cacheable(reader.path) && reader.root in s.workspaces && key in s.workspaces[reader.root]
            then after == Checking(s.workspaces[reader.root][key])
            else after.Reading? && after.seen == []
                 && (Cacheable(reader.path) ==> after.generation == Gen(s, reader.root))
  {
    if UsesContextLink(s.readers[r].path) { assert !Cacheable(s.readers[r].path); }
  }

  /** Changes are announced; drifting contexts, replaced roots and re-pointed names are not. */
  lemma OutsideMoves(s: State, lister: Lister, e: Event, root: string)
    requires Enabled(s, lister, e) && !AboutReader(e)
    ensures var t := Apply(s, lister, e);
            var touched := !e.Relink? && e.root == root;
            && TreeIn(t.trees, root) == (if (e.Change? || e.Replace?) && touched then e.tree else TreeIn(s.trees, root))
            && TreeIn(t.contexts, root) ==
               (if (e.Change? || e.Drift?) && touched then e.context else TreeIn(s.contexts, root))
            && (!e.Change? ==> t.workspaces == s.workspaces && t.gens == s.gens)
  {}

  lemma NamesMove(s: State, lister: Lister, e: Event, root: string)
    requires Enabled(s, lister, e) && !AboutReader(e)
    ensures var t := Apply(s, lister, e);
            && t.readers == s.readers && (Identity(t, root) != Identity(s, root) <==> e.Replace? && e.root == root)
            && Canonical(t, root) == if e.Relink? && e.name == root then e.target else Canonical(s, root)
  {}
}
