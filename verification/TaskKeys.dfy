/** Local-task keys: prefixes per organization, gapless counters, one key per task. */
module TaskKeys {
  import opened Listing
  import opened TaskPrefix
  import Text

  /** `upper` is the project name in upper case; `prefix` is null for a project older than prefixes. */
  datatype Project = Project(org: string, upper: string, prefix: Option<string>)

  datatype Slot = Slot(owner: string, task: string)

  datatype Allocation = Allocation(key: string, number: nat)

  /** One counter table with its allocation table; projects and users each have one. */
  datatype Ledger = Ledger(counters: map<string, nat>, slots: map<Slot, Allocation>)

  datatype Keys = Keys(projects: map<string, Project>, shared: Ledger, personal: Ledger)

  function Counter(l: Ledger, owner: string): nat { if owner in l.counters then l.counters[owner] else 0 }

  function KeyText(prefix: string, n: nat): string { prefix + "-" + Text.Decimal(n) }

  /** Insert-or-increment of the counter, then the allocation row. */
  function Allocated(l: Ledger, owner: string, task: string, prefix: string): Ledger {
    var n := Counter(l, owner) + 1;
    Ledger(l.counters[owner := n], l.slots[Slot(owner, task) := Allocation(KeyText(prefix, n), n)])
  }

  // ---- Prefixes ----

  function TakenPrefixes(k: Keys, org: string): set<string> {
    set p | p in k.projects && k.projects[p].org == org && k.projects[p].prefix.Some? :: k.projects[p].prefix.value
  }

  /** `unit` begins the UTF-16 form of `code`: it is the code itself, or the first of a pair of surrogates. */
  ghost predicate BeginsUtf16(code: nat, unit: nat) {
    || (code < 0x1_0000 && unit == code)
    || (0xD800 <= unit < 0xDC00 && 0 <= code - 0x1_0000 - (unit - 0xD800) * 0x400 < 0x400)
  }

  /** The first UTF-16 unit of each character, which is what the hash reads. */
  function CodeUnits(id: string): (units: seq<nat>)
    ensures |units| == |id| && forall i :: 0 <= i < |id| ==> BeginsUtf16(id[i] as int, units[i])
  {
    seq(|id|, i requires 0 <= i < |id| => var c := id[i] as int;
                                          if c < 0x1_0000 then c else 0xD800 + (c - 0x1_0000) / 0x400)
  }

  function FirstFree(candidates: seq<string>, taken: set<string>): (r: Option<string>)
    ensures r.None? <==> forall c :: c in candidates ==> c in taken
  {
    if candidates == [] then None
    else if candidates[0] !in taken then Some(candidates[0])
    else FirstFree(candidates[1..], taken)
  }

  /** Every candidate before the one found is taken. */
  lemma {:induction false} FirstFreeIsFirst(candidates: seq<string>, taken: set<string>) returns (i: nat)
    requires FirstFree(candidates, taken).Some?
    ensures i < |candidates| && candidates[i] == FirstFree(candidates, taken).value && candidates[i] !in taken
    ensures forall k :: 0 <= k < i ==> candidates[k] in taken
  {
    if candidates[0] !in taken {
      i := 0;
    } else {
      var n := FirstFreeIsFirst(candidates[1..], taken);
      i := n + 1;
      forall k | 0 <= k < i ensures candidates[k] in taken {
        if k > 0 { assert candidates[1..][k - 1] in taken; }
      }
    }
  }

  datatype Backfill = Prefix(value: string) | Exhausted

  function BackfillOf(k: Keys, p: string): Backfill
    requires p in k.projects
  {
    var project := k.projects[p];
    if project.prefix.Some? then Prefix(project.prefix.value)
    else
      var free := FirstFree(Candidates(project.upper, CodeUnits(p)), TakenPrefixes(k, project.org));
      if free.Some? then Prefix(free.value) else Exhausted
  }

  function WithPrefix(k: Keys, p: string): Keys
    requires p in k.projects
  {
    if BackfillOf(k, p).Exhausted? then k
    else k.(projects := k.projects[p := k.projects[p].(prefix := Some(BackfillOf(k, p).value))])
  }

  // ---- Operations; the advisory lock makes each one step ----

  datatype Reply = Key(key: string) | NotFound | NoPrefixLeft | PrefixTaken | Done

  predicate InOrg(k: Keys, org: string, p: string) { p in k.projects && k.projects[p].org == org }

  function AfterCreate(k: Keys, p: string, org: string, upper: string, prefix: string): (Keys, Reply) {
    if prefix in TakenPrefixes(k, org) then (k, PrefixTaken)
    else (k.(projects := k.projects[p := Project(org, upper, Some(prefix))]), Done)
  }

  function AfterEnsure(k: Keys, org: string, p: string): (Keys, Reply) {
    if !InOrg(k, org, p) then (k, NotFound)
    else if BackfillOf(k, p).Exhausted? then (k, NoPrefixLeft)
    else (WithPrefix(k, p), Done)
  }

  function AfterAllocate(k: Keys, org: string, p: string, task: string): (Keys, Reply) {
    if !InOrg(k, org, p) then (k, NotFound)
    else if Slot(p, task) in k.shared.slots then (k, Key(k.shared.slots[Slot(p, task)].key))
    else if BackfillOf(k, p).Exhausted? then (k, NoPrefixLeft)
    else
      var prefix := BackfillOf(k, p).value;
      var ledger := Allocated(k.shared, p, task, prefix);
      (WithPrefix(k, p).(shared := ledger), Key(ledger.slots[Slot(p, task)].key))
  }

  function AfterPersonal(k: Keys, user: string, task: string): (Keys, Reply) {
    if Slot(user, task) in k.personal.slots then (k, Key(k.personal.slots[Slot(user, task)].key))
    else
      var ledger := Allocated(k.personal, user, task, RESERVED_PREFIX);
      (k.(personal := ledger), Key(ledger.slots[Slot(user, task)].key))
  }

  /** Deleting a project cascades to its counter and allocations. */
  function AfterDelete(k: Keys, org: string, p: string): (Keys, Reply) {
    if !InOrg(k, org, p) then (k, NotFound)
    else (k.(projects := k.projects - {p},
          shared := Ledger(k.shared.counters - {p}, map s | s in k.shared.slots
          && s.owner != p :: k.shared.slots[s])), Done)
  }

  datatype Event =
    | Create(p: string, org: string, upper: string, prefix: string)
    | CreateLegacy(p: string, org: string, upper: string)
    | Ensure(org: string, p: string)
    | Allocate(org: string, p: string, task: string)
    | AllocatePersonal(user: string, task: string)
    | Delete(org: string, p: string)

  /** Project ids are new when a project is created, and createProject's prefix has been validated. */
  predicate Enabled(k: Keys, e: Event) {
    match e
    case Create(p, _, _, prefix) => p !in k.projects && ValidPrefix(prefix)
    case CreateLegacy(p, _, _) => p !in k.projects
    case _ => true
  }

  function Apply(k: Keys, e: Event): (Keys, Reply)
    requires Enabled(k, e)
  {
    match e
    case Create(p, org, upper, prefix) => AfterCreate(k, p, org, upper, prefix)
    case CreateLegacy(p, org, upper) => (k.(projects := k.projects[p := Project(org, upper, None)]), Done)
    case Ensure(org, p) => AfterEnsure(k, org, p)
    case Allocate(org, p, task) => AfterAllocate(k, org, p, task)
    case AllocatePersonal(user, task) => AfterPersonal(k, user, task)
    case Delete(org, p) => AfterDelete(k, org, p)
  }

  // ---- Invariants ----

  ghost predicate PrefixesDistinct(projects: map<string, Project>) {
    && (forall p :: p in projects && projects[p].prefix.Some? ==> ValidPrefix(projects[p].prefix.value))
    && (forall p, q :: p in projects && q in projects && p != q && projects[p].org == projects[q].org
                       && projects[p].prefix.Some? ==>
                         projects[p].prefix != projects[q].prefix)
  }

  /** The numbers handed out to an owner are exactly 1..counter, one per task. */
  ghost predicate Gapless(l: Ledger, owner: string) {
    && (forall s :: s in l.slots && s.owner == owner ==> 1 <= l.slots[s].number <= Counter(l, owner))
    && (forall s, t :: s in l.slots && t in l.slots && s.owner == owner && t.owner == owner && s != t ==>
                         l.slots[s].number != l.slots[t].number)
    && (forall n :: 1 <= n <= Counter(l, owner) ==> HasNumber(l, owner, n))
  }

  ghost predicate HasNumber(l: Ledger, owner: string, n: nat) {
    exists s :: s in l.slots && s.owner == owner && l.slots[s].number == n
  }

  ghost predicate AllGapless(l: Ledger) { forall owner :: Gapless(l, owner) }

  ghost predicate KeysMatch(k: Keys) {
    && (forall s :: s in k.shared.slots ==> && s.owner in k.projects && k.projects[s.owner].prefix.Some?
                                            && k.shared.slots[s].key ==
                                               KeyText(k.projects[s.owner].prefix.value, k.shared.slots[s].number))
    && (forall s :: s in k.personal.slots ==>
                      k.personal.slots[s].key == KeyText(RESERVED_PREFIX, k.personal.slots[s].number))
    && (forall p :: p in k.shared.counters ==> p in k.projects)
  }

  ghost predicate Inv(k: Keys) {
    PrefixesDistinct(k.projects) && AllGapless(k.shared) && AllGapless(k.personal) && KeysMatch(k)
  }

  lemma AllocatedGapless(l: Ledger, owner: string, task: string, prefix: string, o: string)
    requires AllGapless(l) && Slot(owner, task) !in l.slots
    ensures Gapless(Allocated(l, owner, task, prefix), o)
  {
    var t := Allocated(l, owner, task, prefix);
    assert Gapless(l, o);
    forall n | 1 <= n <= Counter(t, o) ensures HasNumber(t, o, n) {
      if n <= Counter(l, o) {
        assert HasNumber(l, o, n);
        var s :| s in l.slots && s.owner == o && l.slots[s].number == n;
        assert s in t.slots;
      } else {
        assert Slot(owner, task) in t.slots;
      }
    }
  }

  lemma DeletedGapless(l: Ledger, p: string, o: string)
    requires AllGapless(l)
    ensures Gapless(Ledger(l.counters - {p}, map s | s in l.slots && s.owner != p :: l.slots[s]), o)
  {
    var t := Ledger(l.counters - {p}, map s | s in l.slots && s.owner != p :: l.slots[s]);
    assert Gapless(l, o);
    forall n | 1 <= n <= Counter(t, o) ensures HasNumber(t, o, n) {
      assert HasNumber(l, o, n);
      var s :| s in l.slots && s.owner == o && l.slots[s].number == n;
      assert s in t.slots;
    }
  }

  /** Backfill picks a valid prefix that no other project of the organization has. */
  lemma BackfillFits(k: Keys, p: string)
    requires PrefixesDistinct(k.projects) && p in k.projects && BackfillOf(k, p).Prefix?
    ensures PrefixesDistinct(WithPrefix(k, p).projects)
    ensures forall q :: q in k.projects ==>
                          q in WithPrefix(k, p).projects && WithPrefix(k, p).projects[q].org == k.projects[q].org
    ensures forall q :: q in k.projects && k.projects[q].prefix.Some? ==> WithPrefix(k, p).projects[q] == k.projects[q]
  {
    var project := k.projects[p];
    if project.prefix.None? {
      var i := FirstFreeIsFirst(Candidates(project.upper, CodeUnits(p)), TakenPrefixes(k, project.org));
      CandidateValid(project.upper, CodeUnits(p), BackfillOf(k, p).value);
      var prefix := BackfillOf(k, p).value;
      forall q | q in k.projects && q != p && k.projects[q].org == project.org && k.projects[q].prefix.Some?
        ensures k.projects[q].prefix.value != prefix
      {
        assert k.projects[q].prefix.value in TakenPrefixes(k, project.org);
      }
    }
  }

  /** Another project of the organization has this prefix. */
  ghost predicate IsTaken(k: Keys, org: string, prefix: string) {
    exists q :: q in k.projects && k.projects[q].org == org && k.projects[q].prefix == Some(prefix)
  }

  /**
   A project without a prefix gets the first of its wishes that is neither PERS nor taken in its organization: first the
   letters of its name, then the two-letter extensions in the order the hash of its id gives. It gets none if and only
   if all are taken. A prefix that is set stays.
   */
  lemma BackfillIsFirstWish(k: Keys, p: string)
    requires p in k.projects
    ensures var project := k.projects[p];
            match BackfillOf(k, p)
            case Prefix(value) =>
              if project.prefix.Some? then project.prefix.value == value
              else
                exists n :: && 0 <= n <= 676 && value == Wish(project.upper, CodeUnits(p), n)
                            && value != "PERS" && !IsTaken(k, project.org, value)
                            && forall m :: 0 <= m < n ==>
                                             var wish := Wish(project.upper, CodeUnits(p), m);
                                             wish == "PERS" || IsTaken(k, project.org, wish)
            case Exhausted =>
              && project.prefix.None?
              && forall n :: 0 <= n <= 676 ==>
                               var wish := Wish(project.upper, CodeUnits(p), n);
                               wish == "PERS" || IsTaken(k, project.org, wish)
  {
    var project := k.projects[p];
    var candidates, taken := Candidates(project.upper, CodeUnits(p)), TakenPrefixes(k, project.org);
    forall c ensures c in taken <==> IsTaken(k, project.org, c) {}
    if project.prefix.None? {
      if BackfillOf(k, p).Prefix? {
        var i := FirstFreeIsFirst(candidates, taken);
        var n := WishAt(project.upper, CodeUnits(p), i);
        CandidateValid(project.upper, CodeUnits(p), candidates[i]);
        forall m | 0 <= m < n
          ensures var wish := Wish(project.upper, CodeUnits(p), m); wish == "PERS" || IsTaken(k, project.org, wish)
        {
          var wish := Wish(project.upper, CodeUnits(p), m);
          assert wish == "PERS" || wish in candidates[..i];
        }
      } else {
        forall n | 0 <= n <= 676
          ensures var wish := Wish(project.upper, CodeUnits(p), n); wish == "PERS" || IsTaken(k, project.org, wish)
        {
          WishListed(project.upper, CodeUnits(p), n);
        }
      }
    }
  }

  lemma CreateKeeps(k: Keys, p: string, org: string, upper: string, prefix: string)
    requires Inv(k) && p !in k.projects && ValidPrefix(prefix)
    ensures Inv(AfterCreate(k, p, org, upper, prefix).0)
  {}

  lemma AllocateKeeps(k: Keys, org: string, p: string, task: string)
    requires Inv(k)
    ensures Inv(AfterAllocate(k, org, p, task).0)
  {
    var t := AfterAllocate(k, org, p, task).0;
    if t != k {
      BackfillFits(k, p);
      forall o ensures Gapless(t.shared, o) { AllocatedGapless(k.shared, p, task, BackfillOf(k, p).value, o); }
    }
  }

  lemma PersonalKeeps(k: Keys, user: string, task: string)
    requires Inv(k)
    ensures Inv(AfterPersonal(k, user, task).0)
  {
    var t := AfterPersonal(k, user, task).0;
    if t != k {
      forall o ensures Gapless(t.personal, o) { AllocatedGapless(k.personal, user, task, RESERVED_PREFIX, o); }
    }
  }

  lemma DeleteKeeps(k: Keys, org: string, p: string)
    requires Inv(k)
    ensures Inv(AfterDelete(k, org, p).0)
  {
    var t := AfterDelete(k, org, p).0;
    if t != k {
      forall o ensures Gapless(t.shared, o) { DeletedGapless(k.shared, p, o); }
    }
  }

  lemma InvKept(k: Keys, e: Event)
    requires Inv(k) && Enabled(k, e)
    ensures Inv(Apply(k, e).0)
  {
    match e
    case Create(p, org, upper, prefix) => CreateKeeps(k, p, org, upper, prefix);
    case CreateLegacy(_, _, _) =>
    case Ensure(org, p) => if AfterEnsure(k, org, p).0 != k { BackfillFits(k, p); }
    case Allocate(org, p, task) => AllocateKeeps(k, org, p, task);
    case AllocatePersonal(user, task) => PersonalKeeps(k, user, task);
    case Delete(org, p) => DeleteKeeps(k, org, p);
  }

  // ---- Keys never collide ----

  lemma KeyTextInjective(a: string, m: nat, b: string, n: nat)
    requires '-' !in a && '-' !in b && KeyText(a, m) == KeyText(b, n)
    ensures a == b && m == n
  {
    Text.SplitFirst(a, Text.Decimal(m), '-');
    Text.SplitFirst(b, Text.Decimal(n), '-');
    assert KeyText(a, m) == a + ['-'] + Text.Decimal(m) && KeyText(b, n) == b + ['-'] + Text.Decimal(n);
    NoDash(m);
    NoDash(n);
    Text.SplitWhole(Text.Decimal(m), '-');
    Text.SplitWhole(Text.Decimal(n), '-');
    var parts := Text.Split(KeyText(a, m), '-');
    assert parts == [a, Text.Decimal(m)] && parts == [b, Text.Decimal(n)];
    assert parts[0] == a == b && parts[1] == Text.Decimal(m) == Text.Decimal(n);
    Text.DecimalInverse(m);
    Text.DecimalInverse(n);
  }

  lemma NoDash(n: nat)
    ensures '-' !in Text.Decimal(n)
  {}

  /** Any two live keys of one organization's projects differ. */
  lemma OrganizationKeysDiffer(k: Keys, s: Slot, t: Slot)
    requires Inv(k) && s in k.shared.slots && t in k.shared.slots && s != t
    requires k.projects[s.owner].org == k.projects[t.owner].org
    ensures k.shared.slots[s].key != k.shared.slots[t].key
  {
    var a, b := k.projects[s.owner].prefix.value, k.projects[t.owner].prefix.value;
    assert Gapless(k.shared, s.owner);
    if k.shared.slots[s].key == k.shared.slots[t].key {
      KeyTextInjective(a, k.shared.slots[s].number, b, k.shared.slots[t].number);
    }
  }

  /** No personal key equals a project key, and one user's personal keys all differ. */
  lemma PersonalKeysDiffer(k: Keys, s: Slot, t: Slot)
    requires Inv(k) && s in k.personal.slots
    ensures t in k.shared.slots ==> k.personal.slots[s].key != k.shared.slots[t].key
    ensures t in k.personal.slots && t != s && t.owner == s.owner ==> k.personal.slots[s].key != k.personal.slots[t].key
  {
    assert Gapless(k.personal, s.owner);
    if t in k.shared.slots && k.personal.slots[s].key == k.shared.slots[t].key {
      KeyTextInjective(RESERVED_PREFIX, k.personal.slots[s].number, k.projects[t.owner].prefix.value,
                       k.shared.slots[t].number);
    }
    if t in k.personal.slots && t != s && t.owner == s.owner && k.personal.slots[s].key == k.personal.slots[t].key {
      KeyTextInjective(RESERVED_PREFIX, k.personal.slots[s].number, RESERVED_PREFIX, k.personal.slots[t].number);
    }
  }

  // ---- Whole histories ----

  ghost predicate IsRun(states: seq<Keys>, events: seq<Event>) {
    && |states| == |events| + 1 && states[0] == Keys(map[], Ledger(map[], map[]), Ledger(map[], map[]))
    && forall i :: 0 <= i < |events| ==> Enabled(states[i], events[i]) && states[i + 1] == Apply(states[i], events[i]).0
  }

  /** Three to five capital letters, and not PERS. */
  ghost predicate HasShape(prefix: string) {
    3 <= |prefix| <= 5 && (forall k :: 0 <= k < |prefix| ==> 'A' <= prefix[k] <= 'Z') && prefix != "PERS"
  }

  /**
   In every reachable state prefixes are valid and distinct within an organization, numbers are exactly 1..counter
   with one per task, and every key spells its owner's prefix and its number.
   */
  lemma {:induction false} ReachableKeys(states: seq<Keys>, events: seq<Event>, i: nat)
    requires IsRun(states, events) && i < |states|
    ensures PrefixesDistinct(states[i].projects) && KeysMatch(states[i])
    ensures forall p :: p in states[i].projects && states[i].projects[p].prefix.Some? ==>
                          HasShape(states[i].projects[p].prefix.value)
    ensures AllGapless(states[i].shared) && AllGapless(states[i].personal)
  {
    if i > 0 {
      ReachableKeys(states, events, i - 1);
      InvKept(states[i - 1], events[i - 1]);
    }
  }

  /** So in no reachable state do two live keys of an organization's projects and one user's personal scope collide. */
  lemma KeysNeverCollide(states: seq<Keys>, events: seq<Event>, i: nat, org: string, s: Slot, t: Slot)
    requires IsRun(states, events) && i < |states|
    ensures var k := states[i];
            && (s in k.shared.slots && t in k.shared.slots && s != t && InOrg(k, org, s.owner)
                && InOrg(k, org, t.owner) ==>
                  k.shared.slots[s].key != k.shared.slots[t].key)
            && (s in k.personal.slots && t in k.shared.slots ==> k.personal.slots[s].key != k.shared.slots[t].key)
            && (s in k.personal.slots && t in k.personal.slots && s != t && s.owner == t.owner ==>
                  k.personal.slots[s].key != k.personal.slots[t].key)
  {
    ReachableKeys(states, events, i);
    var k := states[i];
    if s in k.personal.slots {
      PersonalKeysDiffer(k, s, t);
    }
    if s in k.shared.slots && t in k.shared.slots && s != t && InOrg(k, org, s.owner) && InOrg(k, org, t.owner) {
      OrganizationKeysDiffer(k, s, t);
    }
  }

  // ---- What callers are told ----

  /** Nothing of other owners changes. */
  ghost predicate OthersStay(before: Ledger, after: Ledger, owner: string) {
    && (forall o :: o != owner ==> (o in after.counters <==> o in before.counters)
                                   && (o in before.counters ==> after.counters[o] == before.counters[o]))
    && (forall s :: s in before.slots ==> s in after.slots && after.slots[s] == before.slots[s])
    && (forall s :: s in after.slots && s !in before.slots ==> s.owner == owner)
  }

  /**
   Allocating replies with the key stored for the local task: the one it had, or else the project's prefix and the
   number after its counter. It fails for a project of another organization and when no prefix is left, and then changes
   nothing.
   */
  lemma AllocateReplies(k: Keys, org: string, p: string, task: string)
    ensures var (after, reply) := AfterAllocate(k, org, p, task);
            var slot := Slot(p, task);
            && (reply == NotFound <==> !(p in k.projects && k.projects[p].org == org))
            && (reply == NoPrefixLeft <==>
                reply != NotFound && slot !in k.shared.slots && BackfillOf(k, p) == Exhausted)
            && (!reply.Key? ==> after == k && (reply == NotFound || reply == NoPrefixLeft))
            && (reply.Key? ==> slot in after.shared.slots && after.shared.slots[slot].key == reply.key)
            && (reply.Key? && slot in k.shared.slots ==> after == k)
            && (reply.Key? && slot !in k.shared.slots ==>
                  && p in after.shared.counters && after.shared.counters[p] == Counter(k.shared, p) + 1
                  && after.shared.slots[slot].number == Counter(k.shared, p) + 1
                  && p in after.projects && after.projects[p].prefix.Some?
                  && BackfillOf(k, p) == Prefix(after.projects[p].prefix.value)
                  && reply.key == after.projects[p].prefix.value + "-" + Text.Decimal(Counter(k.shared, p) + 1))
            && OthersStay(k.shared, after.shared, p) && after.personal == k.personal
  {}

  /** Creating is refused exactly when the prefix is taken, and otherwise adds the project as it was given. */
  lemma CreateReplies(k: Keys, e: Event)
    requires Enabled(k, e) && (e.Create? || e.CreateLegacy?)
    ensures var (after, reply) := Apply(k, e);
            if e.Create? && IsTaken(k, e.org, e.prefix) then after == k && reply == PrefixTaken
            else
              && reply == Done && after.projects.Keys == k.projects.Keys + {e.p}
              && after.projects[e.p].org == e.org && after.projects[e.p].upper == e.upper
              && after.projects[e.p].prefix == (if e.Create? then Some(e.prefix) else None)
              && (forall q :: q in k.projects ==> after.projects[q] == k.projects[q])
              && after.shared == k.shared && after.personal == k.personal
  {
    if e.Create? { assert e.prefix in TakenPrefixes(k, e.org) <==> IsTaken(k, e.org, e.prefix); }
  }

  /** Deleting takes the project's counter and keys with it, and leaves the others. */
  lemma DeleteReplies(k: Keys, org: string, p: string)
    ensures var (after, reply) := AfterDelete(k, org, p);
            && (reply == if p in k.projects && k.projects[p].org == org then Done else NotFound)
            && (reply == NotFound ==> after == k)
            && (reply == Done ==>
                  && p !in after.projects && p !in after.shared.counters && after.personal == k.personal
                  && (forall s :: s in after.shared.slots <==> s in k.shared.slots && s.owner != p)
                  && (forall q :: q in k.projects && q != p ==>
                                    q in after.projects && after.projects[q] == k.projects[q]))
  {}

  /** The same for a user's own counter, under PERS. */
  lemma PersonalReplies(k: Keys, user: string, task: string)
    ensures var (after, reply) := AfterPersonal(k, user, task);
            var slot := Slot(user, task);
            && reply.Key? && slot in after.personal.slots && after.personal.slots[slot].key == reply.key
            && (slot in k.personal.slots ==> after == k)
            && (slot !in k.personal.slots ==>
                  && user in after.personal.counters && after.personal.counters[user] == Counter(k.personal, user) + 1
                  && after.personal.slots[slot].number == Counter(k.personal, user) + 1
                  && reply.key == "PERS-" + Text.Decimal(Counter(k.personal, user) + 1))
            && OthersStay(k.personal, after.personal, user) && after.projects == k.projects && after.shared == k.shared
  {
    assert RESERVED_PREFIX + "-" == "PERS-";
  }

  /** Ensuring a prefix leaves the project with the one backfill finds, or fails and changes nothing. */
  lemma EnsureReplies(k: Keys, org: string, p: string)
    ensures var (after, reply) := AfterEnsure(k, org, p);
            && (reply == NotFound <==> !(p in k.projects && k.projects[p].org == org))
            && (reply == NoPrefixLeft <==> reply != NotFound && BackfillOf(k, p) == Exhausted)
            && (reply != Done ==> after == k && (reply == NotFound || reply == NoPrefixLeft))
            && (reply == Done ==>
                  && p in after.projects && after.projects[p].prefix.Some?
                  && BackfillOf(k, p) == Prefix(after.projects[p].prefix.value)
                  && after.projects[p] == k.projects[p].(prefix := after.projects[p].prefix)
                  && after.projects.Keys == k.projects.Keys && after.shared == k.shared && after.personal == k.personal
                  && forall q :: q in k.projects && q != p ==> after.projects[q] == k.projects[q])
  {}

  /** What a step leaves alone as long as the project is not deleted. */
  ghost predicate Settled(before: Keys, after: Keys, p: string) {
    p in before.projects ==>
      && p in after.projects && after.projects[p].org == before.projects[p].org
      && (before.projects[p].prefix.Some? ==> after.projects[p].prefix == before.projects[p].prefix)
      && (forall task :: Slot(p, task) in before.shared.slots ==> Slot(p, task) in after.shared.slots)
      && (forall task :: Slot(p, task) in before.shared.slots ==>
                           after.shared.slots[Slot(p, task)] == before.shared.slots[Slot(p, task)])
  }

  lemma StepSettled(k: Keys, e: Event, p: string)
    requires Inv(k) && Enabled(k, e) && !(e.Delete? && e.p == p)
    ensures Settled(k, Apply(k, e).0, p)
  {
    if e.Allocate? {
      AllocateSettled(k, e.org, e.p, e.task, p);
    } else if e.Delete? {
      DeleteSettled(k, e.org, e.p, p);
    } else if e.Ensure? {
      EnsureSettled(k, e.org, e.p, p);
    }
  }

  lemma AllocateSettled(k: Keys, org: string, q: string, task: string, p: string)
    ensures Settled(k, AfterAllocate(k, org, q, task).0, p)
  {}

  lemma DeleteSettled(k: Keys, org: string, q: string, p: string)
    requires q != p
    ensures Settled(k, AfterDelete(k, org, q).0, p)
  {}

  lemma EnsureSettled(k: Keys, org: string, q: string, p: string)
    ensures Settled(k, AfterEnsure(k, org, q).0, p)
  {}

  /** A prefix, once set, and an allocation, once made, stay as they are until the project is deleted. */
  lemma {:induction false} PrefixesAndKeysStay(states: seq<Keys>, events: seq<Event>, i: nat, j: nat, p: string)
    requires IsRun(states, events) && i <= j < |states| && forall n :: i <= n < j ==>
                                                                         !(events[n].Delete? && events[n].p == p)
    ensures Settled(states[i], states[j], p)
    decreases j - i
  {
    if i < j {
      ReachableKeys(states, events, i);
      StepSettled(states[i], events[i], p);
      PrefixesAndKeysStay(states, events, i + 1, j, p);
    }
  }

  /**
   Allocating again for the same task, at any later time before a deletion, returns the same key and changes nothing.
   */
  lemma AllocationIsIdempotent(states: seq<Keys>, events: seq<Event>, i: nat, j: nat)
    requires IsRun(states, events) && i < j < |states| && events[i].Allocate? && Apply(states[i], events[i]).1.Key?
    requires forall n :: i < n < j ==> !(events[n].Delete? && events[n].p == events[i].p)
    ensures AfterAllocate(states[j], events[i].org, events[i].p, events[i].task) ==
            (states[j], Apply(states[i], events[i]).1)
  {
    var e := events[i];
    assert Enabled(states[i], e) && states[i + 1] == Apply(states[i], e).0;
    PrefixesAndKeysStay(states, events, i + 1, j, e.p);
    assert Slot(e.p, e.task) in states[i + 1].shared.slots;
  }
}
