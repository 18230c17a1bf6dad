/** Cron fields and the next matching minute. */
module Cron {
  import opened Listing
  import opened Text
  import ScheduledJobs

  // ---- Matching ----

  /** The parts of an instant in a time zone, as Intl.DateTimeFormat gives them. */
  datatype Parts = Parts(second: int, minute: int, hour: int, day: int, month: int, weekday: int)

  type Clock = int -> Parts

  datatype Field = Any | Values(values: set<int>)

  datatype Parsed = Parsed(minute: Field, hour: Field, dayOfMonth: Field, month: Field, dayOfWeek: Field)

  predicate Matches(field: Field, value: int) { field.Any? || value in field.values }

  /** All five fields at once: day of month and weekday are conjoined. */
  predicate MatchesCron(parsed: Parsed, p: Parts) {
    && p.second == 0
    && Matches(parsed.minute, p.minute) && Matches(parsed.hour, p.hour) && Matches(parsed.dayOfMonth, p.day)
    && Matches(parsed.month, p.month) && Matches(parsed.dayOfWeek, p.weekday)
  }

  const MAX_CRON_SCAN_MINUTES := 60 * 24 * 400

  const MINUTE_MS := 60_000

  /** A whole minute after `from`, within the scan window, at which the expression matches. */
  ghost predicate Candidate(parsed: Parsed, clock: Clock, from: int, t: int) {
    && t % 60_000 == 0 && from < t <= from + 400 * 24 * 60 * 60_000
    && MatchesCron(parsed, clock(t))
  }

  /** What computeNextRunAt promises: the earliest candidate, or that there is none. */
  ghost predicate IsNextRun(parsed: Parsed, clock: Clock, from: int, r: Option<int>) {
    if r.None? then forall t :: !Candidate(parsed, clock, from, t)
    else Candidate(parsed, clock, from, r.value) && forall t :: Candidate(parsed, clock, from, t) ==> r.value <= t
  }

  method ComputeNextRunAt(parsed: Parsed, clock: Clock, from: int) returns (r: Option<int>)
    ensures IsNextRun(parsed, clock, from, r)
  {
    var cursor := from / MINUTE_MS * MINUTE_MS;
    cursor := cursor + MINUTE_MS;
    for i := 0 to MAX_CRON_SCAN_MINUTES
      invariant cursor == (from / MINUTE_MS + 1 + i) * MINUTE_MS
      invariant forall t :: Candidate(parsed, clock, from, t) ==> cursor <= t
    {
      if MatchesCron(parsed, clock(cursor)) {
        return Some(cursor);
      }
      forall t | Candidate(parsed, clock, from, t) ensures cursor + MINUTE_MS <= t {
        assert t != cursor;
      }
      cursor := cursor + MINUTE_MS;
    }
    return None;
  }

  /** There is at most one right answer, so any function that keeps the promise agrees with the method. */
  lemma NextRunIsUnique(parsed: Parsed, clock: Clock, from: int, a: Option<int>, b: Option<int>)
    requires IsNextRun(parsed, clock, from, a) && IsNextRun(parsed, clock, from, b)
    ensures a == b
  {}

  /** The fact the scheduled-job protocol rests on. */
  lemma NextRunIsLater(next: ScheduledJobs.Next, parse: string -> Parsed, zones: string -> Clock)
    requires forall cron, zone, now :: next(cron, zone, now).Some? ==>
                                         IsNextRun(parse(cron), zones(zone), now, next(cron, zone, now))
    ensures ScheduledJobs.StrictlyLater(next)
  {}

  // ---- White space ----

  /** What trim removes and the pattern \\s matches. */
  predicate IsBlank(c: char) {
    || c == ' ' || '\t' <= c <= '\r' || c == '\U{A0}' || c == '\U{1680}' || '\U{2000}' <= c <= '\U{200A}'
    || c == '\U{2028}' || c == '\U{2029}' || c == '\U{202F}' || c == '\U{205F}' || c == '\U{3000}' || c == '\U{FEFF}'
  }

  /** The same as a table of code points. */
  lemma BlanksListed(c: char)
    ensures IsBlank(c) <==>
            c as int in {9, 10, 11, 12, 13, 32, 160, 5760, 8192, 8193, 8194, 8195, 8196, 8197, 8198, 8199, 8200, 8201,
                         8202, 8232, 8233, 8239, 8287, 12288, 65279}
  {}

  predicate NoBlank(s: string) { forall k :: 0 <= k < |s| ==> !IsBlank(s[k]) }

  function Trimmed(s: string): string { Trim(s, IsBlank) }

  /** Every run of white space becomes one blank. */
  function Collapsed(s: string): string
    decreases |s|
  {
    if s == "" then "" else if IsBlank(s[0]) then [' '] + Collapsed(TrimStart(s, IsBlank))
    else [s[0]] + Collapsed(s[1..])
  }

  // ---- Reading one field ----

  const WEEKDAY_NAMES := ["SUN", "MON", "TUE", "WED", "THU", "FRI", "SAT"]

  function UpperChar(c: char): char { if 'a' <= c <= 'z' then (c as int - 32) as char else c }

  function Upper(s: string): string { seq(|s|, i requires 0 <= i < |s| => UpperChar(s[i])) }

  function WeekdayOf(s: string): (r: Option<int>)
    ensures r.Some? ==> 0 <= r.value <= 6
  {
    var u := Upper(s);
    if u == "SUN" then Some(0) else if u == "MON" then Some(1) else if u == "TUE" then Some(2) else if u == "WED"
    then Some(3)
    else if u == "THU" then Some(4) else if u == "FRI" then Some(5) else if u == "SAT" then Some(6) else None
  }

  /** Each letter is that of the name, in upper or lower case. */
  ghost predicate SpellsDay(s: string, name: string) {
    && |s| == |name|
    && forall k :: 0 <= k < |s| ==> s[k] == name[k] || s[k] as int - 'a' as int == name[k] as int - 'A' as int
  }

  lemma UpperMeans(s: string, name: string)
    requires forall k :: 0 <= k < |name| ==> 'A' <= name[k] <= 'Z'
    ensures Upper(s) == name <==> SpellsDay(s, name)
  {
    if Upper(s) == name {
      forall k | 0 <= k < |s| ensures s[k] == name[k] || s[k] as int - 'a' as int == name[k] as int - 'A' as int {
        assert Upper(s)[k] == name[k];
      }
    }
  }

  /** Exactly the seven names are read as weekdays, in any mix of cases. */
  lemma WeekdayMeans(s: string)
    ensures WeekdayOf(s) == if SpellsDay(s, "SUN") then Some(0) else if SpellsDay(s, "MON") then Some(1)
                            else if SpellsDay(s, "TUE") then Some(2) else if SpellsDay(s, "WED") then Some(3)
                            else if SpellsDay(s, "THU") then Some(4) else if SpellsDay(s, "FRI") then Some(5)
                            else if SpellsDay(s, "SAT") then Some(6) else None
  {
    UpperMeans(s, "SUN");
    UpperMeans(s, "MON");
    UpperMeans(s, "TUE");
    UpperMeans(s, "WED");
    UpperMeans(s, "THU");
    UpperMeans(s, "FRI");
    UpperMeans(s, "SAT");
  }

  /** toNumber: a weekday name is taken in any field and skips the range check. */
  function ToNumber(s: string, min: int, max: int): Option<int> {
    if WeekdayOf(s).Some? then WeekdayOf(s)
    else if !IsNumeral(s) then None
    else if min <= NumberOf(s) <= max then Some(NumberOf(s))
    else None
  }

  /** JavaScript's remainder by zero is NaN, so a step of zero keeps nothing. */
  predicate OnStep(v: int, start: int, step: int) { step != 0 && (v - start) % step == 0 }

  /** The values a token stands for, once its bounds and step are read. */
  function Stepped(start: int, end: int, step: int): set<int> {
    set v | start <= v <= end && OnStep(v, start, step)
  }

  method Range(from: int, to: int) returns (out: seq<int>)
    ensures |out| == if from <= to then to - from + 1 else 0
    ensures forall k :: 0 <= k < |out| ==> out[k] == from + k
  {
    out := [];
    var i := from;
    while i <= to
      invariant |out| == i - from && (from <= to ==> i <= to + 1) && (from > to ==> i == from)
      invariant forall k :: 0 <= k < |out| ==> out[k] == from + k
    {
      out := out + [i];
      i := i + 1;
    }
  }

  method EveryNth(values: seq<int>, start: int, step: int) returns (out: set<int>)
    requires forall k :: 0 <= k < |values| ==> values[k] == start + k
    ensures out == Stepped(start, start + |values| - 1, step)
  {
    out := {};
    for i := 0 to |values|
      invariant out == Stepped(start, start + i - 1, step)
    {
      if OnStep(values[i], start, step) {
        out := out + {values[i]};
      }
    }
  }

  /** The bounds of a token's base part; extra pieces after a second '-' are ignored. */
  function BaseOf(base: string, min: int, max: int): Option<(int, int)> {
    if base == "*" then Some((min, max))
    else if '-' in base then
      var ends := Split(base, '-');
      var start, end := ToNumber(ends[0], min, max), ToNumber(ends[1], min, max);
      if ends[0] == "" || ends[1] == "" || start.None? || end.None? || end.value < start.value then None
      else Some((start.value, end.value))
    else
      var n := ToNumber(base, min, max);
      if n.None? then None else Some((n.value, n.value))
  }

  /** What expandToken makes of a text; extra pieces after a second '/' are ignored. */
  ghost function TokenValues(token: string, min: int, max: int): Option<set<int>> {
    var pieces := Split(token, '/');
    var step := if |pieces| > 1 then ToNumber(pieces[1], 1, max) else Some(1);
    var base := BaseOf(pieces[0], min, max);
    if pieces[0] == "" || step.None? || base.None? then None
    else Some(Stepped(base.value.0, base.value.1, step.value))
  }

  method ExpandToken(token: string, min: int, max: int) returns (r: Option<set<int>>)
    ensures r == TokenValues(token, min, max)
  {
    var pieces := Split(token, '/');
    if pieces[0] == "" {
      return None;
    }
    var step := Some(1);
    if |pieces| > 1 {
      step := ToNumber(pieces[1], 1, max);
      if step.None? {
        return None;
      }
    }
    var base := BaseOf(pieces[0], min, max);
    if base.None? {
      return None;
    }
    var (start, end) := base.value;
    var values := Range(start, end);
    var out := EveryNth(values, start, step.value);
    assert out == Stepped(start, end, step.value);
    return Some(out);
  }

  /** The union over the tokens of a list; None if one of them is empty or rejected. */
  ghost function ListValues(tokens: seq<string>, min: int, max: int): Option<set<int>> {
    if tokens == [] then Some({})
    else
      var rest := ListValues(tokens[..|tokens| - 1], min, max);
      var token := Trimmed(tokens[|tokens| - 1]);
      var last := TokenValues(token, min, max);
      if rest.None? || token == "" || last.None? then None else Some(rest.value + last.value)
  }

  ghost function FieldValues(input: string, min: int, max: int): Option<Field> {
    var trimmed := Trimmed(input);
    if trimmed == "*" then Some(Any)
    else
      var vs := ListValues(Split(trimmed, ','), min, max);
      if vs.None? || vs.value == {} then None else Some(Values(vs.value))
  }

  lemma {:induction false} ListFails(tokens: seq<string>, k: nat, min: int, max: int)
    requires k <= |tokens| && ListValues(tokens[..k], min, max).None?
    ensures ListValues(tokens, min, max).None?
    decreases |tokens| - k
  {
    if k < |tokens| {
      assert tokens[..k + 1][..k] == tokens[..k];
      ListFails(tokens, k + 1, min, max);
    } else {
      assert tokens[..k] == tokens;
    }
  }

  method ParseField(input: string, min: int, max: int) returns (r: Option<Field>)
    ensures r == FieldValues(input, min, max)
  {
    var trimmed := Trimmed(input);
    if trimmed == "*" {
      return Some(Any);
    }
    var values: set<int> := {};
    var tokens := Split(trimmed, ',');
    for i := 0 to |tokens|
      invariant ListValues(tokens[..i], min, max) == Some(values)
    {
      assert tokens[..i + 1][..i] == tokens[..i];
      var token := Trimmed(tokens[i]);
      if token == "" {
        ListFails(tokens, i + 1, min, max);
        return None;
      }
      var expanded := ExpandToken(token, min, max);
      if expanded.None? {
        ListFails(tokens, i + 1, min, max);
        return None;
      }
      values := values + expanded.value;
    }
    assert tokens[..|tokens|] == tokens;
    return if values == {} then None else Some(Values(values));
  }

  /** The parts of an expression: trimmed, white space collapsed, split at blanks. */
  function FieldsOf(expression: string): seq<string> { Split(Collapsed(Trimmed(expression)), ' ') }

  method ParseCronExpression(expression: string) returns (r: Option<Parsed>)
    ensures r == ParsedFields(FieldsOf(expression))
  {
    var normalized := Collapsed(Trimmed(expression));
    var fields := Split(normalized, ' ');
    if |fields| != 5 {
      return None;
    }
    var minute := ParseField(fields[0], 0, 59);
    var hour := ParseField(fields[1], 0, 23);
    var dayOfMonth := ParseField(fields[2], 1, 31);
    var month := ParseField(fields[3], 1, 12);
    var dayOfWeek := ParseField(fields[4], 0, 6);
    if minute.None? || hour.None? || dayOfMonth.None? || month.None? || dayOfWeek.None? {
      return None;
    }
    return Some(Parsed(minute.value, hour.value, dayOfMonth.value, month.value, dayOfWeek.value));
  }

  ghost function ParsedFields(fields: seq<string>): Option<Parsed> {
    if |fields| != 5 then None
    else
      var minute, hour := FieldValues(fields[0], 0, 59), FieldValues(fields[1], 0, 23);
      var dayOfMonth, month, dayOfWeek :=
        FieldValues(fields[2], 1, 31), FieldValues(fields[3], 1, 12), FieldValues(fields[4], 0, 6);
      if minute.None? || hour.None? || dayOfMonth.None? || month.None? || dayOfWeek.None? then None
      else Some(Parsed(minute.value, hour.value, dayOfMonth.value, month.value, dayOfWeek.value))
  }

  // ---- What a field is meant to say ----

  /** A number with any leading zeros, or a weekday name in any mix of cases. */
  datatype Atom = Num(n: nat, zeros: nat) | Name(day: nat, letters: string)

  datatype Base = Star | Single(a: Atom) | Span(a: Atom, b: Atom)

  datatype Token = Token(base: Base, step: Option<Atom>)

  predicate WellFormedAtom(a: Atom) { a.Name? ==> a.day < 7 && Upper(a.letters) == WEEKDAY_NAMES[a.day] }

  predicate WellFormed(t: Token) {
    && (t.base.Single? ==> WellFormedAtom(t.base.a))
    && (t.base.Span? ==> WellFormedAtom(t.base.a) && WellFormedAtom(t.base.b))
    && (t.step.Some? ==> WellFormedAtom(t.step.value))
  }

  function AtomText(a: Atom): string
    requires WellFormedAtom(a)
  {
    match a
    case Num(n, zeros) => Zeros(zeros) + Decimal(n)
    case Name(_, letters) => letters
  }

  function BaseText(b: Base): string
    requires b.Single? ==> WellFormedAtom(b.a)
    requires b.Span? ==> WellFormedAtom(b.a) && WellFormedAtom(b.b)
  {
    match b
    case Star => "*"
    case Single(a) => AtomText(a)
    case Span(a, b) => AtomText(a) + "-" + AtomText(b)
  }

  function TokenText(t: Token): string
    requires WellFormed(t)
  {
    if t.step.None? then BaseText(t.base) else BaseText(t.base) + "/" + AtomText(t.step.value)
  }

  function AtomValue(a: Atom): int { if a.Num? then a.n else a.day }

  predicate AtomAccepted(a: Atom, min: int, max: int) { a.Num? ==> min <= a.n <= max }

  predicate TokenAccepted(t: Token, min: int, max: int) {
    && (t.base.Single? ==> AtomAccepted(t.base.a, min, max))
    && (t.base.Span? ==> AtomAccepted(t.base.a, min, max) && AtomAccepted(t.base.b, min, max)
                         && AtomValue(t.base.a) <= AtomValue(t.base.b))
    && (t.step.Some? ==> AtomAccepted(t.step.value, 1, max))
  }

  function First(t: Token, min: int): int { if t.base.Star? then min else AtomValue(t.base.a) }

  function Last(t: Token, max: int): int {
    if t.base.Star? then max else if t.base.Span? then AtomValue(t.base.b) else AtomValue(t.base.a)
  }

  function Times(k: int, n: int): int { k * n }

  function StepOf(t: Token): int { if t.step.Some? then AtomValue(t.step.value) else 1 }

  /** `v` is one of the values the token names: in its span, a whole number of steps from the start. */
  ghost predicate Denotes(t: Token, min: int, max: int, v: int) {
    First(t, min) <= v <= Last(t, max) && StepOf(t) != 0 && exists k :: Times(k, StepOf(t)) == v - First(t, min)
  }

  // ---- Parsing what was meant ----

  lemma NumeralIsNoName(s: string)
    requires IsNumeral(s)
    ensures WeekdayOf(s).None?
  {
    assert IsDigit(s[0]) && Upper(s)[0] == s[0];
  }

  lemma NameRead(day: nat, letters: string)
    requires day < 7 && Upper(letters) == WEEKDAY_NAMES[day]
    ensures WeekdayOf(letters) == Some(day)
  {}

  lemma AtomRead(a: Atom, min: int, max: int)
    requires WellFormedAtom(a)
    ensures ToNumber(AtomText(a), min, max) == if AtomAccepted(a, min, max) then Some(AtomValue(a)) else None
  {
    match a
    case Num(n, zeros) =>
      PaddedInverse(zeros, n);
      NumeralIsNoName(Zeros(zeros) + Decimal(n));
    case Name(day, letters) => NameRead(day, letters);
  }

  lemma AtomPlain(a: Atom)
    requires WellFormedAtom(a)
    ensures var s := AtomText(a); s != "" && s != "*" && '/' !in s && '-' !in s && ',' !in s && NoBlank(s)
  {
    var s := AtomText(a);
    if a.Num? {
      PaddedInverse(a.zeros, a.n);
      assert forall k :: 0 <= k < |s| ==> IsDigit(s[k]);
    } else {
      assert |s| == |WEEKDAY_NAMES[a.day]| == 3;
      forall k | 0 <= k < |s| ensures 'A' <= UpperChar(s[k]) <= 'Z' {
        assert UpperChar(s[k]) == Upper(s)[k] == WEEKDAY_NAMES[a.day][k];
      }
    }
  }

  /** Token texts hold none of the characters that separate tokens or fields. */
  predicate Unbroken(s: string) { s != "" && ',' !in s && NoBlank(s) }

  lemma BasePlain(b: Base)
    requires b.Single? ==> WellFormedAtom(b.a)
    requires b.Span? ==> WellFormedAtom(b.a) && WellFormedAtom(b.b)
    ensures Unbroken(BaseText(b)) && '/' !in BaseText(b)
  {
    if b.Single? {
      AtomPlain(b.a);
    } else if b.Span? {
      AtomPlain(b.a);
      AtomPlain(b.b);
    }
  }

  lemma TokenPlain(t: Token)
    requires WellFormed(t)
    ensures Unbroken(TokenText(t))
  {
    BasePlain(t.base);
    if t.step.Some? { AtomPlain(t.step.value); }
  }

  lemma SpanRead(a: Atom, b: Atom, min: int, max: int)
    requires WellFormedAtom(a) && WellFormedAtom(b)
    ensures BaseOf(AtomText(a) + "-" + AtomText(b), min, max) ==
            if AtomAccepted(a, min, max) && AtomAccepted(b, min, max) && AtomValue(a) <= AtomValue(b)
            then Some((AtomValue(a), AtomValue(b))) else None
  {
    var text := AtomText(a) + "-" + AtomText(b);
    AtomRead(a, min, max);
    AtomRead(b, min, max);
    AtomPlain(a);
    AtomPlain(b);
    SplitFirst(AtomText(a), AtomText(b), '-');
    SplitWhole(AtomText(b), '-');
    assert text[|AtomText(a)|] == '-';
    assert Split(text, '-') == [AtomText(a), AtomText(b)];
  }

  lemma BaseRead(t: Token, min: int, max: int)
    requires WellFormed(t)
    ensures BaseOf(BaseText(t.base), min, max) ==
            if TokenAccepted(Token(t.base, None), min, max) then Some((First(t, min), Last(t, max))) else None
  {
    if t.base.Single? {
      AtomRead(t.base.a, min, max);
      AtomPlain(t.base.a);
    } else if t.base.Span? {
      SpanRead(t.base.a, t.base.b, min, max);
    }
  }

  lemma SmallMultiple(m: int, n: int)
    requires 0 <= m * n < n
    ensures m == 0
  {}

  lemma MultipleIff(d: int, n: int)
    requires n > 0
    ensures d % n == 0 <==> exists k :: Times(k, n) == d
  {
    if d % n == 0 {
      assert Times(d / n, n) == d;
    }
    if exists k :: Times(k, n) == d {
      var k :| Times(k, n) == d;
      assert (k - d / n) * n == d % n;
      SmallMultiple(k - d / n, n);
    }
  }

  lemma SteppedDenotes(t: Token, min: int, max: int, v: int)
    ensures v in Stepped(First(t, min), Last(t, max), StepOf(t)) <==> Denotes(t, min, max, v)
  {
    if StepOf(t) > 0 { MultipleIff(v - First(t, min), StepOf(t)); }
  }

  /** A written token falls into its base and its step. */
  lemma TokenPieces(t: Token)
    requires WellFormed(t)
    ensures Split(TokenText(t), '/') ==
            if t.step.Some? then [BaseText(t.base), AtomText(t.step.value)] else [BaseText(t.base)]
  {
    BasePlain(t.base);
    if t.step.Some? {
      AtomPlain(t.step.value);
      SplitFirst(BaseText(t.base), AtomText(t.step.value), '/');
      SplitWhole(AtomText(t.step.value), '/');
    } else {
      SplitWhole(BaseText(t.base), '/');
    }
  }

  lemma TokenStepped(t: Token, min: int, max: int)
    requires WellFormed(t)
    ensures TokenValues(TokenText(t), min, max) ==
            if TokenAccepted(t, min, max) then Some(Stepped(First(t, min), Last(t, max), StepOf(t))) else None
  {
    TokenPieces(t);
    BasePlain(t.base);
    BaseRead(t, min, max);
    if t.step.Some? { AtomRead(t.step.value, 1, max); }
  }

  /**
   A token written out is read back as exactly the values it names, and refused exactly when a number is out of range or
   a span runs backwards.
   */
  lemma TokenRead(t: Token, min: int, max: int)
    requires WellFormed(t)
    ensures TokenValues(TokenText(t), min, max).Some? <==> TokenAccepted(t, min, max)
    ensures TokenAccepted(t, min, max) ==> forall v :: v in TokenValues(TokenText(t), min, max).value <==>
                                                       Denotes(t, min, max, v)
  {
    TokenStepped(t, min, max);
    forall v ensures v in Stepped(First(t, min), Last(t, max), StepOf(t)) <==> Denotes(t, min, max, v) {
      SteppedDenotes(t, min, max, v);
    }
  }

  function Texts(ts: seq<Token>): (r: seq<string>)
    requires forall k :: 0 <= k < |ts| ==> WellFormed(ts[k])
    ensures |r| == |ts| && forall k :: 0 <= k < |ts| ==> r[k] == TokenText(ts[k])
  {
    seq(|ts|, k requires 0 <= k < |ts| => TokenText(ts[k]))
  }

  ghost predicate SomeDenotes(ts: seq<Token>, min: int, max: int, v: int) {
    exists k :: 0 <= k < |ts| && Denotes(ts[k], min, max, v)
  }

  lemma SomeDenotesSnoc(ts: seq<Token>, min: int, max: int, v: int)
    requires ts != []
    ensures SomeDenotes(ts, min, max, v) <==>
            SomeDenotes(ts[..|ts| - 1], min, max, v) || Denotes(ts[|ts| - 1], min, max, v)
  {}

  lemma NothingToTrim(s: string)
    requires NoBlank(s)
    ensures Trimmed(s) == s
  {
    TrimLength(s, IsBlank);
  }

  lemma ListSnoc(ts: seq<Token>, min: int, max: int)
    requires ts != [] && (forall k :: 0 <= k < |ts| ==> WellFormed(ts[k]))
    ensures var rest := ListValues(Texts(ts[..|ts| - 1]), min, max);
            var last := TokenValues(TokenText(ts[|ts| - 1]), min, max);
            ListValues(Texts(ts), min, max) == if rest.None? || last.None? then None else Some(rest.value + last.value)
  {
    var all, last := Texts(ts), TokenText(ts[|ts| - 1]);
    TokenPlain(ts[|ts| - 1]);
    assert all[..|ts| - 1] == Texts(ts[..|ts| - 1]);
    ListStep(all, min, max);
    NothingToTrim(last);
  }

  lemma ListStep(tokens: seq<string>, min: int, max: int)
    requires tokens != []
    ensures var rest := ListValues(tokens[..|tokens| - 1], min, max);
            var token := Trimmed(tokens[|tokens| - 1]);
            ListValues(tokens, min, max) ==
            if rest.None? || token == "" || TokenValues(token, min, max).None? then None
            else Some(rest.value + TokenValues(token, min, max).value)
  {}

  predicate AllAccepted(ts: seq<Token>, min: int, max: int) {
    ts == [] || (AllAccepted(ts[..|ts| - 1], min, max) && TokenAccepted(ts[|ts| - 1], min, max))
  }

  lemma {:induction false} ListAccepted(ts: seq<Token>, min: int, max: int)
    requires (forall k :: 0 <= k < |ts| ==> WellFormed(ts[k])) && min <= max
    ensures ListValues(Texts(ts), min, max).Some? <==> AllAccepted(ts, min, max)
    decreases |ts|
  {
    if ts == [] {
      assert Texts(ts) == [];
    } else {
      ListAccepted(ts[..|ts| - 1], min, max);
      TokenRead(ts[|ts| - 1], min, max);
      ListSnoc(ts, min, max);
    }
  }

  lemma {:induction false} ListRead(ts: seq<Token>, min: int, max: int, v: int)
    requires (forall k :: 0 <= k < |ts| ==> WellFormed(ts[k])) && min <= max
    ensures var vs := ListValues(Texts(ts), min, max);
            vs.Some? ==> (v in vs.value <==> SomeDenotes(ts, min, max, v))
    decreases |ts|
  {
    if ts != [] {
      TokenRead(ts[|ts| - 1], min, max);
      ListSnoc(ts, min, max);
      ListRead(ts[..|ts| - 1], min, max, v);
      SomeDenotesSnoc(ts, min, max, v);
    }
  }

  ghost predicate Writable(ts: seq<Token>) { ts != [] && forall k :: 0 <= k < |ts| ==> WellFormed(ts[k]) }

  lemma {:induction false} JoinNoBlank(parts: seq<string>, sep: char)
    requires !IsBlank(sep) && forall k :: 0 <= k < |parts| ==> NoBlank(parts[k])
    ensures NoBlank(Join(parts, sep)) && (parts != [] && parts[0] != "" ==> Join(parts, sep) != "")
    decreases |parts|
  {
    if |parts| > 1 { JoinNoBlank(parts[1..], sep); }
  }

  function FieldText(ts: seq<Token>): string
    requires forall k :: 0 <= k < |ts| ==> WellFormed(ts[k])
  {
    Join(Texts(ts), ',')
  }

  /** A written field is one word, and its list is found again. */
  lemma FieldIsList(ts: seq<Token>)
    requires Writable(ts)
    ensures Split(FieldText(ts), ',') == Texts(ts)
    ensures FieldText(ts) != "" && NoBlank(FieldText(ts)) && Trimmed(FieldText(ts)) == FieldText(ts)
  {
    forall k | 0 <= k < |ts| ensures Unbroken(Texts(ts)[k]) { TokenPlain(ts[k]); }
    JoinNoBlank(Texts(ts), ',');
    NothingToTrim(FieldText(ts));
    SplitJoin(Texts(ts), ',');
  }

  lemma StarRead(min: int, max: int, v: int)
    requires min <= v <= max
    ensures var ts := [Token(Star, None)]; AllAccepted(ts, min, max) && SomeDenotes(ts, min, max, v)
  {
    var ts := [Token(Star, None)];
    assert ts[..|ts| - 1] == [] && AllAccepted(ts[..|ts| - 1], min, max);
    assert Times(v - min, 1) == v - min;
    assert Denotes(ts[0], min, max, v);
  }

  lemma ListMeaning(ts: seq<Token>, min: int, max: int, v: int)
    requires Writable(ts) && min <= max
    ensures var vs := ListValues(Texts(ts), min, max);
            && (vs.Some? <==> AllAccepted(ts, min, max))
            && (vs.Some? ==> (vs.value != {} <==> exists w :: SomeDenotes(ts, min, max, w))
                             && (v in vs.value <==> SomeDenotes(ts, min, max, v)))
  {
    ListAccepted(ts, min, max);
    var vs := ListValues(Texts(ts), min, max);
    if vs.Some? {
      forall w ensures w in vs.value <==> SomeDenotes(ts, min, max, w) { ListRead(ts, min, max, w); }
      if vs.value != {} {
        var w :| w in vs.value;
        assert SomeDenotes(ts, min, max, w);
      }
    }
  }

  /** Every token is accepted and some value is named. */
  ghost predicate Sensible(ts: seq<Token>, min: int, max: int) {
    AllAccepted(ts, min, max) && exists w :: SomeDenotes(ts, min, max, w)
  }

  /**
   A field written as a list: accepted exactly when every token is and something is named, and then it matches what it
   names.
   */
  lemma FieldRead(ts: seq<Token>, min: int, max: int, v: int)
    requires Writable(ts) && min <= v <= max
    ensures var f := FieldValues(FieldText(ts), min, max);
            && (f.Some? <==> Sensible(ts, min, max))
            && (f.Some? ==> (Matches(f.value, v) <==> SomeDenotes(ts, min, max, v)))
  {
    FieldIsList(ts);
    StarAlone(ts);
    StarRead(min, max, v);
    ListMeaning(ts, min, max, v);
  }

  lemma StarAlone(ts: seq<Token>)
    requires ts != [] && (forall k :: 0 <= k < |ts| ==> WellFormed(ts[k]))
    ensures FieldText(ts) == "*" ==> ts == [Token(Star, None)]
  {}

  ghost predicate Calendar(p: Parts) {
    0 <= p.minute <= 59 && 0 <= p.hour <= 23 && 1 <= p.day <= 31 && 1 <= p.month <= 12 && 0 <= p.weekday <= 6
  }

  // ---- Whole expressions ----

  /** Words with gaps between them. */
  function Laid(words: seq<string>, gaps: seq<string>): string
    requires words != [] && |gaps| == |words| - 1
    decreases |words|
  {
    if |words| == 1 then words[0] else words[0] + (gaps[0] + Laid(words[1..], gaps[1..]))
  }

  ghost predicate Word(s: string) { s != "" && NoBlank(s) }

  ghost predicate Gap(s: string) { s != "" && AllOf(s, IsBlank) }

  ghost predicate Spaced(words: seq<string>, gaps: seq<string>) {
    && words != [] && |gaps| == |words| - 1
    && (forall k :: 0 <= k < |words| ==> Word(words[k])) && (forall k :: 0 <= k < |gaps| ==> Gap(gaps[k]))
  }

  lemma {:induction false} CollapseWord(word: string, rest: string)
    requires NoBlank(word)
    ensures Collapsed(word + rest) == word + Collapsed(rest)
    decreases |word|
  {
    if word == "" {
      assert word + rest == rest;
    } else {
      assert (word + rest)[0] == word[0] && (word + rest)[1..] == word[1..] + rest;
      CollapseWord(word[1..], rest);
      assert [word[0]] + (word[1..] + Collapsed(rest)) == word + Collapsed(rest);
    }
  }

  lemma CollapseGap(gap: string, rest: string)
    requires Gap(gap) && rest != "" && !IsBlank(rest[0])
    ensures Collapsed(gap + rest) == [' '] + Collapsed(rest)
  {
    TrimStartSkips(gap, rest, IsBlank);
    assert (gap + rest)[0] == gap[0];
  }

  lemma {:induction false} LaidShape(words: seq<string>, gaps: seq<string>)
    requires Spaced(words, gaps)
    ensures var s := Laid(words, gaps); s != "" && s[0] == words[0][0] && !IsBlank(s[0]) && !IsBlank(s[|s| - 1])
    decreases |words|
  {
    if |words| > 1 { LaidShape(words[1..], gaps[1..]); }
  }

  lemma {:induction false} CollapseLaid(words: seq<string>, gaps: seq<string>)
    requires Spaced(words, gaps)
    ensures Collapsed(Laid(words, gaps)) == Join(words, ' ')
    decreases |words|
  {
    if |words| == 1 {
      CollapseWord(words[0], "");
      assert words[0] + "" == words[0];
    } else {
      var rest := Laid(words[1..], gaps[1..]);
      CollapseWord(words[0], gaps[0] + rest);
      LaidShape(words[1..], gaps[1..]);
      CollapseGap(gaps[0], rest);
      CollapseLaid(words[1..], gaps[1..]);
    }
  }

  /** Words are found again whatever white space stands between and around them. */
  lemma FieldsFound(before: string, words: seq<string>, gaps: seq<string>, after: string)
    requires Spaced(words, gaps) && AllOf(before, IsBlank) && AllOf(after, IsBlank)
    ensures FieldsOf(before + (Laid(words, gaps) + after)) == words
  {
    var text := Laid(words, gaps);
    LaidShape(words, gaps);
    assert (text + after)[0] == text[0];
    TrimStartSkips(before, text + after, IsBlank);
    TrimEndSkips(text, after, IsBlank);
    CollapseLaid(words, gaps);
    forall k | 0 <= k < |words| ensures ' ' !in words[k] { assert Word(words[k]); }
    SplitJoin(words, ' ');
  }

  /** Five written fields. */
  datatype Written = Written(minute: seq<Token>, hour: seq<Token>, day: seq<Token>, month: seq<Token>,
                             weekday: seq<Token>)

  ghost predicate WritableAll(w: Written) {
    Writable(w.minute) && Writable(w.hour) && Writable(w.day) && Writable(w.month) && Writable(w.weekday)
  }

  ghost function FieldTexts(w: Written): seq<string>
    requires WritableAll(w)
  {
    [FieldText(w.minute), FieldText(w.hour), FieldText(w.day), FieldText(w.month), FieldText(w.weekday)]
  }

  lemma ParsedFive(a: string, b: string, c: string, d: string, e: string)
    ensures var minute, hour, day := FieldValues(a, 0, 59), FieldValues(b, 0, 23), FieldValues(c, 1, 31);
            var month, weekday := FieldValues(d, 1, 12), FieldValues(e, 0, 6);
            ParsedFields([a, b, c, d, e]) ==
            if minute.Some? && hour.Some? && day.Some? && month.Some? && weekday.Some?
            then Some(Parsed(minute.value, hour.value, day.value, month.value, weekday.value)) else None
  {}

  lemma FieldsMean(w: Written, p: Parts)
    requires WritableAll(w) && Calendar(p)
    ensures var parsed := ParsedFields(FieldTexts(w));
            && (parsed.Some? <==>
                && Sensible(w.minute, 0, 59) && Sensible(w.hour, 0, 23) && Sensible(w.day, 1, 31)
                && Sensible(w.month, 1, 12) && Sensible(w.weekday, 0, 6))
            && (parsed.Some? ==>
                  (MatchesCron(parsed.value, p) <==>
                   && p.second == 0 && SomeDenotes(w.minute, 0, 59, p.minute) && SomeDenotes(w.hour, 0, 23, p.hour)
                   && SomeDenotes(w.day, 1, 31, p.day) && SomeDenotes(w.month, 1, 12, p.month)
                   && SomeDenotes(w.weekday, 0, 6, p.weekday)))
  {
    ParsedFive(FieldText(w.minute), FieldText(w.hour), FieldText(w.day), FieldText(w.month), FieldText(w.weekday));
    FieldRead(w.minute, 0, 59, p.minute);
    FieldRead(w.hour, 0, 23, p.hour);
    FieldRead(w.day, 1, 31, p.day);
    FieldRead(w.month, 1, 12, p.month);
    FieldRead(w.weekday, 0, 6, p.weekday);
  }

  lemma FieldWord(ts: seq<Token>)
    requires Writable(ts)
    ensures Word(FieldText(ts))
  {
    FieldIsList(ts);
  }

  lemma FiveWords(a: string, b: string, c: string, d: string, e: string)
    requires Word(a) && Word(b) && Word(c) && Word(d) && Word(e)
    ensures forall k :: 0 <= k < 5 ==> Word([a, b, c, d, e][k])
  {}

  /**
   An expression, with any white space between and around its five fields, is accepted exactly when each field is
   sensible, and then matches an instant exactly when the seconds are zero and each field names its part.
   */
  lemma ExpressionMeaning(w: Written, before: string, gaps: seq<string>, after: string, p: Parts)
    requires WritableAll(w) && Calendar(p) && AllOf(before, IsBlank) && AllOf(after, IsBlank)
    requires |gaps| == 4 && forall k :: 0 <= k < |gaps| ==> Gap(gaps[k])
    ensures var parsed := ParsedFields(FieldsOf(before + (Laid(FieldTexts(w), gaps) + after)));
            && (parsed.Some? <==>
                && Sensible(w.minute, 0, 59) && Sensible(w.hour, 0, 23) && Sensible(w.day, 1, 31)
                && Sensible(w.month, 1, 12) && Sensible(w.weekday, 0, 6))
            && (parsed.Some? ==>
                  (MatchesCron(parsed.value, p) <==>
                   && p.second == 0 && SomeDenotes(w.minute, 0, 59, p.minute) && SomeDenotes(w.hour, 0, 23, p.hour)
                   && SomeDenotes(w.day, 1, 31, p.day) && SomeDenotes(w.month, 1, 12, p.month)
                   && SomeDenotes(w.weekday, 0, 6, p.weekday)))
  {
    FieldWord(w.minute);
    FieldWord(w.hour);
    FieldWord(w.day);
    FieldWord(w.month);
    FieldWord(w.weekday);
    FiveWords(FieldText(w.minute), FieldText(w.hour), FieldText(w.day), FieldText(w.month), FieldText(w.weekday));
    FieldsFound(before, FieldTexts(w), gaps, after);
    FieldsMean(w, p);
  }

  /**
   Bounds. Every value of an accepted token lies within the field, except when the field starts at one and the
   token starts at the name SUN, which stands for zero and is not checked.
   */
  lemma BoundsExact(t: Token, min: int, max: int)
    requires WellFormed(t) && TokenAccepted(t, min, max) && 0 <= min <= 1 && 6 <= max && StepOf(t) != 0
    ensures (forall v :: Denotes(t, min, max, v) ==> min <= v <= max) <==> !(min == 1 && First(t, min) == 0)
  {
    assert Times(0, StepOf(t)) == 0;
    assert First(t, min) <= Last(t, max) ==> Denotes(t, min, max, First(t, min));
  }

  /** For example, SUN as a month is accepted and stands for month zero, which no date has. */
  lemma SundayIsNoMonth()
    ensures FieldValues("SUN", 1, 12) == Some(Values({0}))
  {
    var u := Upper("SUN");
    assert u == "SUN";
    NothingToTrim("SUN");
    SplitWhole("SUN", ',');
    SplitWhole("SUN", '/');
    assert ["SUN"][..0] == [];
    ListStep(["SUN"], 1, 12);
    assert TokenValues("SUN", 1, 12) == Some(Stepped(0, 0, 1));
    assert Stepped(0, 0, 1) == {0};
    assert {} + Stepped(0, 0, 1) == {0};
  }
}
