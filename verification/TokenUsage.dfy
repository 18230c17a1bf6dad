/** Hourly token usage: adding up one upload, and merging uploads into the stored row. */
module TokenUsage {
  import opened Listing
  import Text

  datatype Source = Unknown | Estimated | Direct

  datatype Counters = Counters(
    input: nat, output: nat, cachedInput: nat, cachedWrite: nat, reasoning: nat, total: nat, cost: nat,
    events: nat, sessions: nat, turns: nat, tools: nat)

  /** The five fields rows are added up by, for one organization. */
  datatype Key = Key(project: string, workspace: string, agent: string, model: string, bucket: string)

  datatype Meta = Meta(workspacePath: string, model: string, confidence: string, ingestedAt: int, runId: string)

  datatype Row = Row(key: Key, counters: Counters, source: Source, meta: Meta)

  function Priority(source: Source): nat {
    match source
    case Direct => 3
    case Estimated => 2
    case Unknown => 1
  }

  // ---- One upload ----

  /** A row as it arrives; cost and cost source may be missing. */
  datatype Upload = Upload(key: Key, counters: Counters, cost: Option<nat>, source: Option<Source>, meta: Meta)

  /** A missing cost counts as zero and a missing source as unknown; nothing else changes. */
  function Normalize(u: Upload): (r: Row)
    ensures r.key == u.key && r.meta == u.meta && r.counters == u.counters.(cost := r.counters.cost)
    ensures match u.cost case None => r.counters.cost == 0 case Some(cost) => r.counters.cost == cost
    ensures match u.source case None => r.source == Unknown case Some(source) => r.source == source
  {
    Row(u.key, u.counters.(cost := if u.cost.Some? then u.cost.value else 0), if u.source.Some? then u.source.value
        else Unknown, u.meta)
  }

  function PartsOf(k: Key): seq<string> { [k.project, k.workspace, k.agent, k.model, k.bucket] }

  function KeyText(k: Key): string { Text.Join(PartsOf(k), '|') }

  function Plus(a: Counters, b: Counters): Counters {
    Counters(a.input + b.input, a.output + b.output, a.cachedInput + b.cachedInput, a.cachedWrite + b.cachedWrite,
             a.reasoning + b.reasoning,
             a.total + b.total, a.cost + b.cost, a.events + b.events, a.sessions + b.sessions, a.turns + b.turns,
             a.tools + b.tools)
  }

  /** What the loop makes of a row whose key it has already met. */
  function Absorb(existing: Row, row: Row): Row {
    Row(existing.key, Plus(existing.counters, row.counters),
        if Priority(row.source) > Priority(existing.source) then row.source else existing.source,
        if row.meta.ingestedAt > existing.meta.ingestedAt then row.meta else existing.meta)
  }

  /** The rows of one key, in order. */
  function Group(rows: seq<Row>, key: string): seq<Row> {
    if rows == [] then []
    else
      var rest := Group(rows[..|rows| - 1], key);
      var last := rows[|rows| - 1];
      if KeyText(last.key) == key then rest + [last] else rest
  }

  function Total(g: seq<Row>): Row
    requires g != []
  {
    if |g| == 1 then g[0] else Absorb(Total(g[..|g| - 1]), g[|g| - 1])
  }

  /** The distinct keys, in the order they first occur. */
  function KeysInOrder(rows: seq<Row>): seq<string> {
    if rows == [] then []
    else
      var rest := KeysInOrder(rows[..|rows| - 1]);
      var key := KeyText(rows[|rows| - 1].key);
      if key in rest then rest else rest + [key]
  }

  lemma {:induction false} KeyHasRows(rows: seq<Row>, key: string)
    ensures key in KeysInOrder(rows) <==> Group(rows, key) != []
    ensures Group(rows, key) != [] ==> KeyText(Group(rows, key)[0].key) == key
    decreases |rows|
  {
    if rows != [] { KeyHasRows(rows[..|rows| - 1], key); }
  }

  lemma {:induction false} KeysDistinct(rows: seq<Row>, i: nat, j: nat)
    requires i < j < |KeysInOrder(rows)|
    ensures KeysInOrder(rows)[i] != KeysInOrder(rows)[j]
    decreases |rows|
  {
    var rest := KeysInOrder(rows[..|rows| - 1]);
    if j < |rest| { KeysDistinct(rows[..|rows| - 1], i, j); } else { assert rest[i] in rest; }
  }

  lemma {:induction false} RowHasKey(rows: seq<Row>, r: Row)
    requires r in rows
    ensures KeyText(r.key) in KeysInOrder(rows)
    decreases |rows|
  {
    if r != rows[|rows| - 1] {
      assert r in rows[..|rows| - 1];
      RowHasKey(rows[..|rows| - 1], r);
    }
  }

  /** The row of the i-th key: the total of its group. */
  function DedupedRow(rows: seq<Row>, key: string): Row
    requires key in KeysInOrder(rows)
  {
    KeyHasRows(rows, key);
    Total(Group(rows, key))
  }

  function Deduped(rows: seq<Row>): seq<Row> {
    var ks := KeysInOrder(rows);
    seq(|ks|, i requires 0 <= i < |ks| => DedupedRow(rows, ks[i]))
  }

  /** The map the loop has built after these rows. */
  function TableOf(rows: seq<Row>): map<string, Row> {
    if rows == [] then map[]
    else
      var table := TableOf(rows[..|rows| - 1]);
      var row := rows[|rows| - 1];
      var key := KeyText(row.key);
      table[key := if key in table then Absorb(table[key], row) else row]
  }

  lemma {:induction false} TableMeans(rows: seq<Row>, k: string)
    ensures k in TableOf(rows) <==> k in KeysInOrder(rows)
    ensures k in TableOf(rows) ==> TableOf(rows)[k] == DedupedRow(rows, k)
    decreases |rows|
  {
    if rows != [] {
      var init := rows[..|rows| - 1];
      TableMeans(init, k);
      KeyHasRows(init, k);
      var rest := Group(init, k);
      assert (rest + [rows[|rows| - 1]])[..|rest|] == rest;
    }
  }

  method DedupeRows(uploads: seq<Upload>) returns (out: seq<Row>)
    ensures out == Deduped(NormalizeAll(uploads))
  {
    ghost var rows := NormalizeAll(uploads);
    var order: seq<string> := [];
    var byKey: map<string, Row> := map[];
    for i := 0 to |uploads|
      invariant order == KeysInOrder(rows[..i])
      invariant byKey == TableOf(rows[..i])
    {
      var row := Normalize(uploads[i]);
      var key := KeyText(row.key);
      assert rows[..i + 1][..i] == rows[..i] && rows[..i + 1][i] == row;
      TableMeans(rows[..i], key);
      if key !in byKey {
        order := order + [key];
        byKey := byKey[key := row];
      } else {
        byKey := byKey[key := Absorb(byKey[key], row)];
      }
    }
    assert rows[..|uploads|] == rows;
    out := ValuesOf(order, byKey, rows);
  }

  /** Array.from(byKey.values()). */
  method ValuesOf(order: seq<string>, byKey: map<string, Row>, ghost rows: seq<Row>) returns (out: seq<Row>)
    requires order == KeysInOrder(rows) && byKey == TableOf(rows)
    ensures out == Deduped(rows)
  {
    out := [];
    for i := 0 to |order|
      invariant out == Deduped(rows)[..i]
    {
      TableMeans(rows, order[i]);
      out := out + [byKey[order[i]]];
    }
  }

  function NormalizeAll(uploads: seq<Upload>): seq<Row> {
    seq(|uploads|, i requires 0 <= i < |uploads| => Normalize(uploads[i]))
  }

  // ---- What the totals are ----

  /** The counters of a row, one by one. */
  datatype Column =
    | Input | Output | CachedInput | CachedWrite | Reasoning | TotalTokens | Cost | EventCount | Sessions | Turns
    | Tools

  function Get(c: Counters, column: Column): nat {
    match column
    case Input => c.input
    case Output => c.output
    case CachedInput => c.cachedInput
    case CachedWrite => c.cachedWrite
    case Reasoning => c.reasoning
    case TotalTokens => c.total
    case Cost => c.cost
    case EventCount => c.events
    case Sessions => c.sessions
    case Turns => c.turns
    case Tools => c.tools
  }

  /** The sum of one counter over some rows. */
  function SumOf(g: seq<Row>, column: Column): nat {
    if g == [] then 0 else SumOf(g[..|g| - 1], column) + Get(g[|g| - 1].counters, column)
  }

  /** Direct costs outrank estimates, and estimates outrank costs of unknown source. */
  ghost predicate HighestPriority(g: seq<Row>, source: Source) {
    source == if exists k :: 0 <= k < |g| && g[k].source == Direct then Direct
    else if exists k :: 0 <= k < |g| && g[k].source == Estimated then Estimated
    else Unknown
  }

  /** `meta` is that of the first row with the latest ingestion time. */
  ghost predicate FirstLatest(g: seq<Row>, meta: Meta) {
    exists k :: 0 <= k < |g| && g[k].meta == meta
                && (forall i :: 0 <= i < |g| ==> g[i].meta.ingestedAt <= meta.ingestedAt)
                && (forall i :: 0 <= i < k ==> g[i].meta.ingestedAt < meta.ingestedAt)
  }

  lemma FirstLatestStep(g: seq<Row>, meta: Meta, row: Row)
    requires FirstLatest(g, meta)
    ensures FirstLatest(g + [row], if row.meta.ingestedAt > meta.ingestedAt then row.meta else meta)
  {
    var h := g + [row];
    var k :| 0 <= k < |g| && g[k].meta == meta
             && (forall i :: 0 <= i < |g| ==> g[i].meta.ingestedAt <= meta.ingestedAt)
             && (forall i :: 0 <= i < k ==> g[i].meta.ingestedAt < meta.ingestedAt);
    if row.meta.ingestedAt > meta.ingestedAt {
      assert h[|g|].meta == row.meta;
    } else {
      assert h[k].meta == meta;
    }
  }

  lemma {:induction false} TotalKey(g: seq<Row>)
    requires g != []
    ensures Total(g).key == g[0].key
    decreases |g|
  {
    if |g| > 1 { TotalKey(g[..|g| - 1]); }
  }

  lemma {:induction false} TotalCounters(g: seq<Row>, column: Column)
    requires g != []
    ensures Get(Total(g).counters, column) == SumOf(g, column)
    decreases |g|
  {
    if |g| == 1 {
      assert SumOf(g, column) == SumOf(g[..0], column) + Get(g[0].counters, column) && g[..0] == [];
    } else {
      TotalCounters(g[..|g| - 1], column);
    }
  }

  lemma PriorityStep(g: seq<Row>, source: Source, row: Row)
    requires g != [] && HighestPriority(g, source)
    ensures HighestPriority(g + [row], if Priority(row.source) > Priority(source) then row.source else source)
  {
    var h := g + [row];
    assert h[|g|] == row;
    forall k | 0 <= k < |g| ensures h[k] == g[k] {}
  }

  lemma {:induction false} TotalSource(g: seq<Row>)
    requires g != []
    ensures HighestPriority(g, Total(g).source)
    decreases |g|
  {
    if |g| == 1 {
      assert g[0].source == Total(g).source;
    } else {
      var init, row := g[..|g| - 1], g[|g| - 1];
      TotalSource(init);
      PriorityStep(init, Total(init).source, row);
      assert init + [row] == g;
    }
  }

  lemma {:induction false} TotalMeta(g: seq<Row>)
    requires g != []
    ensures FirstLatest(g, Total(g).meta)
    decreases |g|
  {
    if |g| == 1 {
      assert g[0].meta == Total(g).meta;
    } else {
      var init, row := g[..|g| - 1], g[|g| - 1];
      TotalMeta(init);
      FirstLatestStep(init, Total(init).meta, row);
      assert init + [row] == g;
    }
  }

  predicate PlainKey(k: Key) {
    '|' !in k.project && '|' !in k.workspace && '|' !in k.agent && '|' !in k.model && '|' !in k.bucket
  }

  lemma KeyTextParts(k: Key)
    ensures KeyText(k) == k.project + ['|'] + (k.workspace + ['|'] + (k.agent + ['|'] + (k.model + ['|'] + k.bucket)))
  {
    var two := [k.model, k.bucket];
    var three := [k.agent, k.model, k.bucket];
    var four := [k.workspace, k.agent, k.model, k.bucket];
    assert two[1..] == [k.bucket] && three[1..] == two && four[1..] == three;
    assert [k.project, k.workspace, k.agent, k.model, k.bucket][1..] == four;
    assert Text.Join(two, '|') == k.model + ['|'] + k.bucket;
    assert Text.Join(three, '|') == k.agent + ['|'] + Text.Join(two, '|');
    assert Text.Join(four, '|') == k.workspace + ['|'] + Text.Join(three, '|');
  }

  /** Four bars from joining, and those inside the fields. */
  lemma BarsCounted(k: Key)
    ensures multiset(KeyText(k))['|'] == 4 <==> PlainKey(k)
  {
    KeyTextParts(k);
    var d := k.model + ['|'] + k.bucket;
    var c := k.agent + ['|'] + d;
    var b := k.workspace + ['|'] + c;
    assert multiset(d)['|'] == multiset(k.model)['|'] + 1 + multiset(k.bucket)['|'];
    assert multiset(c)['|'] == multiset(k.agent)['|'] + 1 + multiset(d)['|'];
    assert multiset(b)['|'] == multiset(k.workspace)['|'] + 1 + multiset(c)['|'];
    assert multiset(KeyText(k))['|'] == multiset(k.project)['|'] + 1 + multiset(b)['|'];
  }

  /** A text with four bars comes from one key. */
  lemma PlainKeyIsUnique(a: Key, b: Key)
    requires PlainKey(a) && KeyText(a) == KeyText(b)
    ensures a == b
  {
    BarsCounted(a);
    BarsCounted(b);
    PlainSplits(a);
    PlainSplits(b);
    SameParts(a, b);
  }

  lemma PlainSplits(k: Key)
    requires PlainKey(k)
    ensures Text.Split(KeyText(k), '|') == PartsOf(k)
  {
    Text.SplitJoin(PartsOf(k), '|');
  }

  lemma SameParts(a: Key, b: Key)
    requires PartsOf(a) == PartsOf(b)
    ensures a == b
  {
    var x, y := PartsOf(a), PartsOf(b);
    assert x[0] == y[0] && x[1] == y[1] && x[2] == y[2] && x[3] == y[3] && x[4] == y[4];
  }

  lemma BarMoves(u: string, v: string, x: string, rest: string)
    ensures u + ['|'] + v + ['|'] + (x + rest) == u + ['|'] + (v + ['|'] + x + rest)
  {}

  /** A bar at the end of the project can as well stand at the start of the workspace, whatever the other fields are. */
  lemma JoinedKeysCollide(u: string, v: string, workspace: string, agent: string, model: string, bucket: string)
    ensures KeyText(Key(u + ['|'] + v, workspace, agent, model, bucket)) ==
            KeyText(Key(u, v + ['|'] + workspace, agent, model, bucket))
  {
    var rest := ['|'] + (agent + ['|'] + (model + ['|'] + bucket));
    KeyTextParts(Key(u + ['|'] + v, workspace, agent, model, bucket));
    KeyTextParts(Key(u, v + ['|'] + workspace, agent, model, bucket));
    assert workspace + ['|'] + (agent + ['|'] + (model + ['|'] + bucket)) == workspace + rest;
    assert v + ['|'] + workspace + ['|'] + (agent + ['|'] + (model + ['|'] + bucket)) == v + ['|'] + workspace + rest;
    BarMoves(u, v, workspace, rest);
  }

  lemma Around(s: string) returns (u: string, v: string)
    requires '|' in s
    ensures s == u + ['|'] + v
  {
    var k :| 0 <= k < |s| && s[k] == '|';
    u, v := s[..k], s[k + 1..];
  }

  /** Any bar inside a field can be moved across a neighbouring joint. */
  lemma SecondKey(a: Key) returns (b: Key)
    requires !PlainKey(a)
    ensures b != a && KeyText(b) == KeyText(a)
  {
    KeyTextParts(a);
    var d := a.model + ['|'] + a.bucket;
    var c := a.agent + ['|'] + d;
    if '|' in a.project {
      var u, v := Around(a.project);
      b := a.(project := u, workspace := v + ['|'] + a.workspace);
      KeyTextParts(b);
      assert v + ['|'] + a.workspace + ['|'] + c == v + ['|'] + (a.workspace + ['|'] + c);
    } else if '|' in a.workspace {
      var u, v := Around(a.workspace);
      b := a.(workspace := u, agent := v + ['|'] + a.agent);
      KeyTextParts(b);
      assert v + ['|'] + a.agent + ['|'] + d == v + ['|'] + (a.agent + ['|'] + d);
      assert b.workspace + ['|'] + (b.agent + ['|'] + d) == a.workspace + ['|'] + c;
    } else if '|' in a.agent {
      var u, v := Around(a.agent);
      b := a.(agent := u, model := v + ['|'] + a.model);
      KeyTextParts(b);
      assert v + ['|'] + a.model + ['|'] + a.bucket == v + ['|'] + d;
      assert b.agent + ['|'] + (b.model + ['|'] + b.bucket) == c;
    } else if '|' in a.model {
      var u, v := Around(a.model);
      b := a.(model := u, bucket := v + ['|'] + a.bucket);
      KeyTextParts(b);
      assert b.model + ['|'] + b.bucket == d;
    } else {
      var u, v := Around(a.bucket);
      b := a.(model := a.model + ['|'] + u, bucket := v);
      KeyTextParts(b);
      assert b.model + ['|'] + b.bucket == d;
      assert |b.bucket| < |a.bucket|;
    }
  }

  /** The joined text identifies a key if and only if no field of it holds a bar. */
  lemma KeyTextExactly(a: Key)
    ensures (forall b :: KeyText(b) == KeyText(a) ==> b == a) <==> PlainKey(a)
  {
    if PlainKey(a) {
      forall b | KeyText(b) == KeyText(a) ensures b == a { PlainKeyIsUnique(a, b); }
    } else {
      var b := SecondKey(a);
    }
  }

  lemma DedupedKey(rows: seq<Row>, j: nat)
    requires j < |Deduped(rows)|
    ensures Group(rows, KeysInOrder(rows)[j]) != [] && KeyText(Deduped(rows)[j].key) == KeysInOrder(rows)[j]
  {
    var k := KeysInOrder(rows)[j];
    KeyHasRows(rows, k);
    TotalKey(Group(rows, k));
  }

  /**
   Dedupe conserves: the i-th row holds the sums over the rows of its key, the cost source of highest
   priority among them and the metadata of the first latest one.
   */
  lemma DedupeConserves(rows: seq<Row>, i: nat)
    requires i < |Deduped(rows)|
    ensures var out := Deduped(rows);
            var g := Group(rows, KeyText(out[i].key));
            && g != [] && (forall column :: Get(out[i].counters, column) == SumOf(g, column))
            && HighestPriority(g, out[i].source) && FirstLatest(g, out[i].meta)
  {
    DedupedKey(rows, i);
    var g := Group(rows, KeysInOrder(rows)[i]);
    forall column ensures Get(Deduped(rows)[i].counters, column) == SumOf(g, column) { TotalCounters(g, column); }
    TotalSource(g);
    TotalMeta(g);
  }

  /** Every uploaded key has exactly one row in the result. */
  lemma OneRowPerKey(rows: seq<Row>, r: Row) returns (i: nat)
    requires r in rows
    ensures i < |Deduped(rows)| && KeyText(Deduped(rows)[i].key) == KeyText(r.key)
    ensures forall j :: 0 <= j < |Deduped(rows)| && j != i ==> KeyText(Deduped(rows)[j].key) != KeyText(r.key)
  {
    RowHasKey(rows, r);
    var ks := KeysInOrder(rows);
    i :| 0 <= i < |ks| && ks[i] == KeyText(r.key);
    DedupedKey(rows, i);
    forall j | 0 <= j < |Deduped(rows)| && j != i ensures KeyText(Deduped(rows)[j].key) != KeyText(r.key) {
      DedupedKey(rows, j);
      if i < j { KeysDistinct(rows, i, j); } else { KeysDistinct(rows, j, i); }
    }
  }

  // ---- Merging into the stored row ----

  /** The condition of every CASE: the stored value stays. */
  predicate KeepsStored(stored: Row, excluded: Row) {
    || stored.counters.total > excluded.counters.total
    || (stored.counters.total == excluded.counters.total && Priority(stored.source) > Priority(excluded.source))
    || (&& stored.counters.total == excluded.counters.total && stored.source == excluded.source
        && stored.source == Estimated
        && excluded.counters.cost == 0 && stored.counters.cost > 0)
  }

  function Case<T>(stored: Row, excluded: Row, a: T, b: T): T { if KeepsStored(stored, excluded) then a else b }

  /** onConflictDoUpdate, column by column. */
  function Merge(stored: Row, excluded: Row): Row {
    var s, x := stored.counters, excluded.counters;
    Row(stored.key,
        Counters(Case(stored, excluded, s.input, x.input), Case(stored, excluded, s.output, x.output),
                 Case(stored, excluded, s.cachedInput, x.cachedInput),
                 Case(stored, excluded, s.cachedWrite, x.cachedWrite),
                 Case(stored, excluded, s.reasoning, x.reasoning), Case(stored, excluded, s.total, x.total),
                 Case(stored, excluded, s.cost, x.cost), Case(stored, excluded, s.events, x.events),
                 Case(stored, excluded, s.sessions, x.sessions), Case(stored, excluded, s.turns, x.turns),
                 Case(stored, excluded, s.tools, x.tools)),
        Case(stored, excluded, stored.source, excluded.source),
        excluded.meta)
  }

  /** The measure the CASE compares: total tokens, then cost source, then an estimate that has a cost. */
  datatype Rank = Rank(total: nat, source: Source, isPriced: bool)

  function RankOf(r: Row): Rank {
    Rank(r.counters.total, r.source, r.source == Estimated && r.counters.cost > 0)
  }

  /** Unknown, estimated, direct, from low to high. */
  predicate Weaker(a: Source, b: Source) { (a == Unknown && b != Unknown) || (a == Estimated && b == Direct) }

  predicate Below(a: Rank, b: Rank) {
    a.total < b.total
    || (a.total == b.total && (Weaker(a.source, b.source) || (a.source == b.source && !a.isPriced && b.isPriced)))
  }

  /** The long CASE is a comparison in this order. */
  lemma KeepsStoredIff(stored: Row, excluded: Row)
    ensures KeepsStored(stored, excluded) <==> Below(RankOf(excluded), RankOf(stored))
  {}

  predicate SameUsage(a: Row, b: Row) { a.counters == b.counters && a.source == b.source }

  /** The stored row after these uploads for one key. */
  function Merged(us: seq<Row>): Row
    requires us != []
  {
    if |us| == 1 then us[0] else Merge(Merged(us[..|us| - 1]), us[|us| - 1])
  }

  /** `m` is the last of the uploads that no other upload outranks. */
  ghost predicate LastMaximal(us: seq<Row>, m: nat) {
    && m < |us|
    && (forall k :: 0 <= k < |us| ==> !Below(RankOf(us[m]), RankOf(us[k])))
    && (forall k :: m < k < |us| ==> Below(RankOf(us[k]), RankOf(us[m])))
  }

  /**
   All merged counters and the cost source come from one upload, the last maximal one; the metadata from the last
   upload.
   */
  lemma {:induction false} MergeIsLastMaximum(us: seq<Row>) returns (m: nat)
    requires us != []
    ensures LastMaximal(us, m) && SameUsage(Merged(us), us[m])
    ensures Merged(us).key == us[0].key && Merged(us).meta == us[|us| - 1].meta
    decreases |us|
  {
    if |us| == 1 {
      m := 0;
    } else {
      var init, last := us[..|us| - 1], us[|us| - 1];
      m := MergeIsLastMaximum(init);
      KeepsStoredIff(Merged(init), last);
      if !KeepsStored(Merged(init), last) {
        forall k | 0 <= k < |us| ensures !Below(RankOf(last), RankOf(us[k])) {
          if k < |init| { assert !Below(RankOf(init[m]), RankOf(init[k])); }
        }
        m := |us| - 1;
      } else {
        forall k | 0 <= k < |us| ensures !Below(RankOf(us[m]), RankOf(us[k])) {
          if k < |init| { assert !Below(RankOf(init[m]), RankOf(init[k])); }
        }
        forall k | m < k < |us| ensures Below(RankOf(us[k]), RankOf(us[m])) {
          if k < |init| { assert Below(RankOf(init[k]), RankOf(init[m])); }
        }
      }
    }
  }

  /** The stored measure never decreases. */
  lemma MeasureNeverDecreases(stored: Row, excluded: Row)
    ensures !Below(RankOf(Merge(stored, excluded)), RankOf(stored))
    ensures !Below(RankOf(Merge(stored, excluded)), RankOf(excluded))
  {}

  /** The stored measure does not depend on the order of the uploads. */
  lemma MeasureIgnoresOrder(us: seq<Row>, vs: seq<Row>)
    requires us != [] && multiset(us) == multiset(vs)
    ensures vs != [] && RankOf(Merged(us)) == RankOf(Merged(vs))
  {
    assert us[0] in multiset(us);
    var m := MergeIsLastMaximum(us);
    var n := MergeIsLastMaximum(vs);
    assert us[m] in multiset(vs) && vs[n] in multiset(us);
    var j :| 0 <= j < |vs| && vs[j] == us[m];
    var i :| 0 <= i < |us| && us[i] == vs[n];
    assert !Below(RankOf(vs[n]), RankOf(vs[j])) && !Below(RankOf(us[m]), RankOf(us[i]));
  }

  // ---- The table ----

  /** The columns of the unique index, where the bucket is an instant. */
  datatype Slot = Slot(project: string, workspace: string, agent: string, model: string, hour: int)

  /** The instant a bucket text denotes. */
  type Hours = string -> int

  function SlotOf(k: Key, hours: Hours): Slot { Slot(k.project, k.workspace, k.agent, k.model, hours(k.bucket)) }

  /** filterRowsWithKnownWorkspaces: `known` maps a workspace to its project. */
  predicate Known(known: map<string, string>, r: Row) {
    r.key.workspace in known && known[r.key.workspace] == r.key.project
  }

  function KnownRows(batch: seq<Row>, known: map<string, string>): (r: seq<Row>)
    ensures forall x :: x in r <==> x in batch && Known(known, x)
  {
    if batch == [] then []
    else
      var rest := KnownRows(batch[..|batch| - 1], known);
      assert batch == batch[..|batch| - 1] + [batch[|batch| - 1]];
      if Known(known, batch[|batch| - 1]) then rest + [batch[|batch| - 1]] else rest
  }

  /** Two rows of one insert would update the same stored row, which the database refuses. */
  predicate Ambiguous(rows: seq<Row>, hours: Hours) {
    exists i, j :: 0 <= i < j < |rows| && SlotOf(rows[i].key, hours) == SlotOf(rows[j].key, hours)
  }

  function Upserted(table: map<Slot, Row>, rows: seq<Row>, hours: Hours): map<Slot, Row> {
    if rows == [] then table
    else
      var rest := Upserted(table, rows[..|rows| - 1], hours);
      var row := rows[|rows| - 1];
      var slot := SlotOf(row.key, hours);
      rest[slot := if slot in rest then Merge(rest[slot], row) else row]
  }

  datatype Reply = Done(upserted: nat) | Refused

  function AfterUpload(table: map<Slot, Row>, rows: seq<Row>, known: map<string, string>,
                       hours: Hours): (map<Slot, Row>, Reply) {
    var valid := KnownRows(Deduped(rows), known);
    if Ambiguous(valid, hours) then (table, Refused) else (Upserted(table, valid, hours), Done(|valid|))
  }

  class UsageTable {
    var rows: map<Slot, Row>

    constructor ()
      ensures rows == map[]
    {
      rows := map[];
    }

    method UpsertHourly(uploads: seq<Upload>, known: map<string, string>, hours: Hours) returns (reply: Reply)
      modifies this
      ensures (rows, reply) == old(AfterUpload(rows, NormalizeAll(uploads), known, hours))
    {
      var deduped := DedupeRows(uploads);
      var valid := FilterKnown(deduped, known);
      if Ambiguous(valid, hours) {
        return Refused;
      }
      for i := 0 to |valid|
        invariant rows == Upserted(old(rows), valid[..i], hours)
      {
        assert valid[..i + 1][..i] == valid[..i];
        var slot := SlotOf(valid[i].key, hours);
        rows := rows[slot := if slot in rows then Merge(rows[slot], valid[i]) else valid[i]];
      }
      assert valid[..|valid|] == valid;
      return Done(|valid|);
    }
  }

  method FilterKnown(batch: seq<Row>, known: map<string, string>) returns (valid: seq<Row>)
    ensures valid == KnownRows(batch, known)
  {
    valid := [];
    for i := 0 to |batch|
      invariant valid == KnownRows(batch[..i], known)
    {
      assert batch[..i + 1][..i] == batch[..i];
      if Known(known, batch[i]) {
        valid := valid + [batch[i]];
      }
    }
    assert batch[..|batch|] == batch;
  }

  /** An insert without ambiguous rows writes each slot on its own. */
  lemma {:induction false} UpsertedAt(table: map<Slot, Row>, rows: seq<Row>, hours: Hours, slot: Slot)
    requires !Ambiguous(rows, hours)
    ensures (forall i :: 0 <= i < |rows| ==> SlotOf(rows[i].key, hours) != slot) ==>
              && (slot in Upserted(table, rows, hours) <==> slot in table)
              && (slot in table ==> Upserted(table, rows, hours)[slot] == table[slot])
    ensures forall i :: 0 <= i < |rows| && SlotOf(rows[i].key, hours) == slot ==>
                          var row := if slot in table then Merge(table[slot], rows[i]) else rows[i];
                          slot in Upserted(table, rows, hours) && Upserted(table, rows, hours)[slot] == row
    decreases |rows|
  {
    if rows != [] {
      var n := |rows| - 1;
      var init := rows[..n];
      assert forall i :: 0 <= i < n ==> init[i] == rows[i];
      UpsertedAt(table, init, hours, slot);
    }
  }

  lemma MergeTwice(stored: Row, row: Row)
    ensures Merge(Merge(stored, row), row) == Merge(stored, row)
    ensures Merge(row, row) == row
  {}

  /** Uploading the same batch a second time gets the same reply and leaves the table as the first upload left it. */
  lemma SecondUploadChangesNothing(table: map<Slot, Row>, rows: seq<Row>, known: map<string, string>, hours: Hours)
    ensures var once := AfterUpload(table, rows, known, hours); AfterUpload(once.0, rows, known, hours) == once
  {
    var valid := KnownRows(Deduped(rows), known);
    if !Ambiguous(valid, hours) {
      var once := Upserted(table, valid, hours);
      var twice := Upserted(once, valid, hours);
      forall slot ensures (slot in twice <==> slot in once) && (slot in once ==> twice[slot] == once[slot]) {
        UpsertedAt(table, valid, hours, slot);
        UpsertedAt(once, valid, hours, slot);
        if exists i :: 0 <= i < |valid| && SlotOf(valid[i].key, hours) == slot {
          var i :| 0 <= i < |valid| && SlotOf(valid[i].key, hours) == slot;
          MergeTwice(if slot in table then table[slot] else valid[i], valid[i]);
        }
      }
      assert twice == once;
    }
  }

  /** The slot has the four key columns and the hour the bucket denotes. */
  predicate IsSlotOf(slot: Slot, k: Key, hours: Hours) {
    && slot.project == k.project && slot.workspace == k.workspace && slot.agent == k.agent && slot.model == k.model
    && slot.hour == hours(k.bucket)
  }

  /**
   An accepted upload writes, for every deduplicated row whose workspace is known and belongs to its project, the slot
   of that row, and nothing else; the reply counts those rows.
   */
  lemma UploadWrites(table: map<Slot, Row>, rows: seq<Row>, known: map<string, string>, hours: Hours, slot: Slot)
    requires AfterUpload(table, rows, known, hours).1.Done?
    ensures var out, batch := AfterUpload(table, rows, known, hours).0, Deduped(rows);
            && (forall i :: 0 <= i < |batch| && batch[i].key.workspace in known
                            && known[batch[i].key.workspace] == batch[i].key.project
                            && IsSlotOf(slot, batch[i].key, hours) ==>
                              var row := if slot in table then Merge(table[slot], batch[i]) else batch[i];
                              slot in out && out[slot] == row)
            && ((forall i :: 0 <= i < |batch| && batch[i].key.workspace in known
                             && known[batch[i].key.workspace] == batch[i].key.project ==>
                               !IsSlotOf(slot, batch[i].key, hours)) ==>
                  (slot in out <==> slot in table) && (slot in table ==> out[slot] == table[slot]))
  {
    var batch, valid := Deduped(rows), KnownRows(Deduped(rows), known);
    UpsertedAt(table, valid, hours, slot);
    forall i | 0 <= i < |batch| && Known(known, batch[i]) ensures batch[i] in valid {
      assert batch[i] in batch;
    }
    forall k | 0 <= k < |valid| ensures valid[k] in batch && Known(known, valid[k]) {
      assert valid[k] in valid;
    }
  }

  /** The places of the rows whose workspace is known and belongs to their project. */
  function KnownPlacesOf(batch: seq<Row>, known: map<string, string>): set<nat> {
    set i: nat | i < |batch| && batch[i].key.workspace in known
                 && known[batch[i].key.workspace] == batch[i].key.project
  }

  lemma {:induction false} KnownCounted(batch: seq<Row>, known: map<string, string>)
    ensures |KnownRows(batch, known)| == |KnownPlacesOf(batch, known)|
    decreases |batch|
  {
    if batch != [] {
      var n := |batch| - 1;
      KnownCounted(batch[..n], known);
      KnownPlacesStep(batch[..n], batch[n], known);
      assert batch[..n] + [batch[n]] == batch;
    }
  }

  lemma KnownPlacesStep(batch: seq<Row>, row: Row, known: map<string, string>)
    ensures var before := KnownPlacesOf(batch, known);
            && KnownPlacesOf(batch + [row], known) == (if Known(known, row) then before + {|batch|} else before)
            && |batch| !in before
  {
    var more := batch + [row];
    forall i: nat | i < |batch| ensures more[i] == batch[i] {}
  }

  lemma UploadCounted(table: map<Slot, Row>, rows: seq<Row>, known: map<string, string>, hours: Hours)
    requires AfterUpload(table, rows, known, hours).1.Done?
    ensures AfterUpload(table, rows, known, hours).1.upserted == |KnownPlacesOf(Deduped(rows), known)|
  {
    KnownCounted(Deduped(rows), known);
  }

  // ---- When an upload is refused ----

  /** The i-th row is the first one with its joined key, so its fields name the deduplicated row. */
  ghost predicate Head(rows: seq<Row>, i: nat) {
    i < |rows| && forall k :: 0 <= k < i ==> KeyText(rows[k].key) != KeyText(rows[i].key)
  }

  /** The two keys agree in project, workspace, agent and model, and their buckets denote the same hour. */
  predicate SameSlot(a: Key, b: Key, hours: Hours) {
    && a.project == b.project && a.workspace == b.workspace && a.agent == b.agent && a.model == b.model
    && hours(a.bucket) == hours(b.bucket)
  }

  /** Two keys of a known workspace of their project differ in text and name one slot. */
  ghost predicate SpelledTwice(rows: seq<Row>, known: map<string, string>, hours: Hours) {
    exists i: nat, j: nat :: i < j && Head(rows, i) && Head(rows, j) && SameSlot(rows[i].key, rows[j].key, hours)
                             && rows[i].key.workspace in known && known[rows[i].key.workspace] == rows[i].key.project
  }

  lemma {:induction false} GroupMember(rows: seq<Row>, key: string, r: Row)
    requires r in Group(rows, key)
    ensures r in rows && KeyText(r.key) == key
    decreases |rows|
  {
    if r != rows[|rows| - 1] || KeyText(r.key) != key { GroupMember(rows[..|rows| - 1], key, r); }
  }

  lemma {:induction false} GroupHead(rows: seq<Row>, i: nat)
    requires Head(rows, i)
    ensures var g := Group(rows, KeyText(rows[i].key)); g != [] && g[0] == rows[i]
    decreases |rows|
  {
    var n, key := |rows| - 1, KeyText(rows[i].key);
    var init := rows[..n];
    if i < n {
      assert Head(init, i) && init[i] == rows[i];
      GroupHead(init, i);
    } else {
      NoGroup(init, key);
    }
  }

  lemma {:induction false} NoGroup(rows: seq<Row>, key: string)
    requires forall k :: 0 <= k < |rows| ==> KeyText(rows[k].key) != key
    ensures Group(rows, key) == []
    decreases |rows|
  {
    if rows != [] { NoGroup(rows[..|rows| - 1], key); }
  }

  /** A head names the row its key is added up into. */
  lemma HeadDeduped(rows: seq<Row>, i: nat) returns (m: nat)
    requires Head(rows, i)
    ensures m < |Deduped(rows)| && Deduped(rows)[m].key == rows[i].key && KeysInOrder(rows)[m] == KeyText(rows[i].key)
  {
    m := OneRowPerKey(rows, rows[i]);
    DedupedKey(rows, m);
    GroupHead(rows, i);
    TotalKey(Group(rows, KeyText(rows[i].key)));
  }

  lemma FirstWith(rows: seq<Row>, key: string) returns (i: nat)
    requires exists k :: 0 <= k < |rows| && KeyText(rows[k].key) == key
    ensures Head(rows, i) && KeyText(rows[i].key) == key
  {
    i := 0;
    while KeyText(rows[i].key) != key
      invariant i < |rows| && forall k :: 0 <= k < i ==> KeyText(rows[k].key) != key
      decreases |rows| - i
    {
      i := i + 1;
    }
  }

  lemma DedupedHead(rows: seq<Row>, m: nat) returns (i: nat)
    requires m < |Deduped(rows)|
    ensures Head(rows, i) && Deduped(rows)[m].key == rows[i].key && KeysInOrder(rows)[m] == KeyText(rows[i].key)
  {
    DedupedKey(rows, m);
    var key := KeysInOrder(rows)[m];
    GroupMember(rows, key, Group(rows, key)[0]);
    i := FirstWith(rows, key);
    GroupHead(rows, i);
    TotalKey(Group(rows, key));
  }

  /** Different positions of the known rows are different positions of the batch. */
  lemma {:induction false} KnownPlaces(batch: seq<Row>, known: map<string, string>, i: nat,
                                       j: nat) returns (a: nat, b: nat)
    requires i < j < |KnownRows(batch, known)|
    ensures a < b < |batch| && batch[a] == KnownRows(batch, known)[i] && batch[b] == KnownRows(batch, known)[j]
    decreases |batch|
  {
    var n := |batch| - 1;
    var rest := KnownRows(batch[..n], known);
    if j < |rest| {
      a, b := KnownPlaces(batch[..n], known, i, j);
    } else {
      b := n;
      assert rest[i] in batch[..n];
      a :| 0 <= a < n && batch[..n][a] == rest[i];
    }
  }

  lemma SpelledIsRefused(rows: seq<Row>, known: map<string, string>, hours: Hours)
    requires SpelledTwice(rows, known, hours)
    ensures Ambiguous(KnownRows(Deduped(rows), known), hours)
  {
    var i: nat, j: nat :| i < j && Head(rows, i) && Head(rows, j) && SameSlot(rows[i].key, rows[j].key, hours)
                          && rows[i].key.workspace in known && known[rows[i].key.workspace] == rows[i].key.project;
    var a := HeadDeduped(rows, i);
    var b := HeadDeduped(rows, j);
    var batch, valid := Deduped(rows), KnownRows(Deduped(rows), known);
    assert batch[a] in batch && batch[b] in batch;
    var x :| 0 <= x < |valid| && valid[x] == batch[a];
    var y :| 0 <= y < |valid| && valid[y] == batch[b];
    assert KeyText(rows[i].key) != KeyText(rows[j].key);
    TwoRows(valid, hours, x, y);
  }

  lemma TwoRows(valid: seq<Row>, hours: Hours, x: nat, y: nat)
    requires x < |valid| && y < |valid| && x != y && SlotOf(valid[x].key, hours) == SlotOf(valid[y].key, hours)
    ensures Ambiguous(valid, hours)
  {
    if x < y {
      assert SlotOf(valid[x].key, hours) == SlotOf(valid[y].key, hours);
    } else {
      assert SlotOf(valid[y].key, hours) == SlotOf(valid[x].key, hours);
    }
  }

  lemma RefusedIsSpelled(rows: seq<Row>, known: map<string, string>, hours: Hours)
    requires Ambiguous(KnownRows(Deduped(rows), known), hours)
    ensures SpelledTwice(rows, known, hours)
  {
    var batch, valid := Deduped(rows), KnownRows(Deduped(rows), known);
    var x, y :| 0 <= x < y < |valid| && SlotOf(valid[x].key, hours) == SlotOf(valid[y].key, hours);
    var a, b := KnownPlaces(batch, known, x, y);
    var i := DedupedHead(rows, a);
    var j := DedupedHead(rows, b);
    KeysDistinct(rows, a, b);
    assert valid[x] in valid && valid[y] in valid;
    TwoHeads(rows, known, hours, i, j);
  }

  lemma TwoHeads(rows: seq<Row>, known: map<string, string>, hours: Hours, i: nat, j: nat)
    requires i != j && Head(rows, i) && Head(rows, j) && Known(known, rows[i]) && Known(known, rows[j])
    requires SlotOf(rows[i].key, hours) == SlotOf(rows[j].key, hours)
    ensures SpelledTwice(rows, known, hours)
  {
    var first, second := if i < j then i else j, if i < j then j else i;
    assert first < second && Head(rows, first) && Head(rows, second);
    assert SameSlot(rows[first].key, rows[second].key, hours);
  }

  /**
   An upload is refused if and only if two of its keys, of known workspaces, spell the hour of one slot differently.
   */
  lemma RefusedExactly(table: map<Slot, Row>, rows: seq<Row>, known: map<string, string>, hours: Hours)
    ensures AfterUpload(table, rows, known, hours).1.Refused? <==> SpelledTwice(rows, known, hours)
  {
    if SpelledTwice(rows, known, hours) { SpelledIsRefused(rows, known, hours); }
    if Ambiguous(KnownRows(Deduped(rows), known), hours) { RefusedIsSpelled(rows, known, hours); }
  }

  /** For example, one hour written with and without milliseconds, whatever else the two rows hold. */
  lemma MillisecondsAreRefused(table: map<Slot, Row>, q: Row, r: Row, known: map<string, string>, hours: Hours)
    requires PlainKey(q.key) && Known(known, q) && r.key == q.key.(bucket := "2025-01-01T00:00:00.000Z")
    requires q.key.bucket == "2025-01-01T00:00:00Z"
    requires hours("2025-01-01T00:00:00Z") == hours("2025-01-01T00:00:00.000Z")
    ensures AfterUpload(table, [q, r], known, hours).1.Refused?
  {
    var rows := [q, r];
    assert |q.key.bucket| != |r.key.bucket|;
    if KeyText(q.key) == KeyText(r.key) { PlainKeyIsUnique(q.key, r.key); }
    assert Head(rows, 0) && Head(rows, 1);
    RefusedExactly(table, rows, known, hours);
  }
}
