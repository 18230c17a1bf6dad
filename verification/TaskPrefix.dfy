/** The deterministic task-prefix candidates of a legacy project. */
module TaskPrefix {
  import opened Sets

  const ALPHABET_SIZE := 26

  const COLLISION_CANDIDATE_COUNT := 676

  const RESERVED_PREFIX := "PERS"

  predicate IsCapital(c: char) { 'A' <= c <= 'Z' }

  /** The shape createProject validates: three to five capital letters, and not the personal prefix. */
  predicate ValidPrefix(s: string) {
    3 <= |s| <= 5 && (forall k :: 0 <= k < |s| ==> IsCapital(s[k])) && s != RESERVED_PREFIX
  }

  // ---- The seed ----

  function Letters(s: string): (r: string)
    ensures forall k :: 0 <= k < |r| ==> IsCapital(r[k])
  {
    if s == "" then "" else if IsCapital(s[0]) then [s[0]] + Letters(s[1..]) else Letters(s[1..])
  }

  lemma {:induction false} LettersKeepOrder(s: string, c: char, t: string)
    ensures Letters(s + [c] + t) == Letters(s) + (if 'A' <= c <= 'Z' then [c] else []) + Letters(t)
    decreases |s|
  {
    var whole := s + [c] + t;
    if s == "" {
      assert whole[0] == c && whole[1..] == t;
    } else {
      assert whole[0] == s[0] && whole[1..] == s[1..] + [c] + t;
      LettersKeepOrder(s[1..], c, t);
    }
  }

  /**
   buildPrefixSeed, for a project name already converted to upper case: its first five letters, filled up to three from
   PRJ when it has fewer.
   */
  function PrefixSeed(upperName: string): (seed: string)
    ensures 3 <= |seed| <= 5 && forall k :: 0 <= k < |seed| ==> IsCapital(seed[k])
    ensures |Letters(upperName)| >= 3 ==> seed <= Letters(upperName) && (|seed| == 5 || seed == Letters(upperName))
    ensures |Letters(upperName)| < 3 ==> Letters(upperName) <= seed <= Letters(upperName) + "PRJ" && |seed| == 3
  {
    var letters := Letters(upperName);
    if |letters| >= 3 then letters[..if |letters| < 5 then |letters| else 5] else (letters + "PRJ")[..3]
  }

  // ---- The hash ----

  /** The polynomial the loop evaluates, without a word size. */
  function Polynomial(codes: seq<nat>): nat {
    if codes == [] then 0 else Polynomial(codes[..|codes| - 1]) * 31 + codes[|codes| - 1]
  }

  const WORD := 0x1_0000_0000

  lemma ReduceEarly(h: nat, code: nat)
    ensures ((h % WORD) * 31 + code) % WORD == (h * 31 + code) % WORD
  {
    assert h * 31 + code == (h % WORD) * 31 + code + (h / WORD) * 31 * WORD;
  }

  function Power(base: nat, n: nat): nat { if n == 0 then 1 else base * Power(base, n - 1) }

  /** The value of the codes in base 31, the first one highest. */
  function InBase31(codes: seq<nat>): nat {
    if codes == [] then 0 else codes[0] * Power(31, |codes| - 1) + InBase31(codes[1..])
  }

  lemma {:induction false} BaseSnoc(codes: seq<nat>, last: nat)
    ensures InBase31(codes + [last]) == InBase31(codes) * 31 + last
    decreases |codes|
  {
    var more := codes + [last];
    if codes == [] {
      assert more == [last] && Power(31, 0) == 1;
    } else {
      assert more[1..] == codes[1..] + [last];
      BaseSnoc(codes[1..], last);
      TimesBase(codes[0], |codes|);
    }
  }

  lemma TimesBase(c: nat, n: nat)
    requires n > 0
    ensures c * Power(31, n) == c * Power(31, n - 1) * 31
  {
    assert Power(31, n) == 31 * Power(31, n - 1);
  }

  lemma {:induction false} HashIsBase31(codes: seq<nat>)
    ensures Polynomial(codes) == InBase31(codes)
    decreases |codes|
  {
    if codes != [] {
      var init := codes[..|codes| - 1];
      HashIsBase31(init);
      BaseSnoc(init, codes[|codes| - 1]);
      assert init + [codes[|codes| - 1]] == codes;
    }
  }

  /** Reducing to 32 bits after every character gives the value in base 31 modulo 2^32. */
  method CalculateStableHash(codes: seq<nat>) returns (hash: nat)
    ensures hash == Polynomial(codes) % WORD == InBase31(codes) % 0x1_0000_0000
  {
    HashIsBase31(codes);
    hash := 0;
    for i := 0 to |codes|
      invariant hash == Polynomial(codes[..i]) % WORD
    {
      assert codes[..i + 1][..i] == codes[..i];
      ReduceEarly(Polynomial(codes[..i]), codes[i]);
      hash := (hash * 31 + codes[i]) % WORD;
    }
    assert codes[..|codes|] == codes;
  }

  // ---- The candidates ----

  function Capital(n: nat): (c: char)
    requires n < ALPHABET_SIZE
    ensures IsCapital(c) && c as int == 65 + n
  {
    (65 + n) as char
  }

  function CollisionSuffix(value: nat): (s: string)
    ensures |s| == 2 && IsCapital(s[0]) && IsCapital(s[1])
  {
    var normalized := value % COLLISION_CANDIDATE_COUNT;
    [Capital(normalized / ALPHABET_SIZE), Capital(normalized % ALPHABET_SIZE)]
  }

  function Extension(seed: string, offset: nat, i: nat): string
    requires |seed| >= 3
  {
    seed[..3] + CollisionSuffix(offset + i)
  }

  /** The list after `n` turns of the candidate loop. */
  function CandidatesUpTo(seed: string, offset: nat, n: nat): seq<string>
    requires |seed| >= 3
  {
    if n == 0 then (if seed == RESERVED_PREFIX then [] else [seed])
    else
      var c := Extension(seed, offset, n - 1);
      var rest := CandidatesUpTo(seed, offset, n - 1);
      if c != RESERVED_PREFIX && c != seed then rest + [c] else rest
  }

  function Candidates(upperName: string, codes: seq<nat>): seq<string> {
    CandidatesUpTo(PrefixSeed(upperName), Polynomial(codes) % WORD % COLLISION_CANDIDATE_COUNT,
                   COLLISION_CANDIDATE_COUNT)
  }

  method BuildLegacyTaskPrefixCandidates(upperName: string, codes: seq<nat>) returns (candidates: seq<string>)
    ensures candidates == Candidates(upperName, codes)
  {
    var initialCandidate := PrefixSeed(upperName);
    var collisionBase := initialCandidate[..3];
    var hash := CalculateStableHash(codes);
    var collisionOffset := hash % COLLISION_CANDIDATE_COUNT;
    candidates := if initialCandidate == RESERVED_PREFIX then [] else [initialCandidate];
    for index := 0 to COLLISION_CANDIDATE_COUNT
      invariant candidates == CandidatesUpTo(initialCandidate, collisionOffset, index)
    {
      var candidate := collisionBase + CollisionSuffix(collisionOffset + index);
      if candidate != RESERVED_PREFIX && candidate != initialCandidate {
        candidates := candidates + [candidate];
      }
    }
  }

  // ---- What the list holds ----

  lemma SuffixDistinct(offset: nat, i: nat, k: nat)
    requires i < k < i + COLLISION_CANDIDATE_COUNT
    ensures CollisionSuffix(offset + i) != CollisionSuffix(offset + k)
  {
    var a, b := (offset + i) % COLLISION_CANDIDATE_COUNT, (offset + k) % COLLISION_CANDIDATE_COUNT;
    assert a != b;
    assert a / ALPHABET_SIZE != b / ALPHABET_SIZE || a % ALPHABET_SIZE != b % ALPHABET_SIZE;
    var s, t := CollisionSuffix(offset + i), CollisionSuffix(offset + k);
    assert s[0] as int == 65 + a / ALPHABET_SIZE && t[0] as int == 65 + b / ALPHABET_SIZE;
    assert s[1] as int == 65 + a % ALPHABET_SIZE && t[1] as int == 65 + b % ALPHABET_SIZE;
  }

  lemma {:induction false} MemberIff(seed: string, offset: nat, n: nat, c: string)
    requires |seed| >= 3
    ensures c in CandidatesUpTo(seed, offset, n) <==>
            c != RESERVED_PREFIX && (c == seed || exists i :: 0 <= i < n && c == Extension(seed, offset, i))
  {
    if n > 0 {
      MemberIff(seed, offset, n - 1, c);
      assert c == Extension(seed, offset, n - 1) || c != Extension(seed, offset, n - 1);
    }
  }

  predicate NoRepeats(cs: seq<string>) { forall i, k :: 0 <= i < k < |cs| ==> cs[i] != cs[k] }

  lemma {:induction false} NoRepeatsUpTo(seed: string, offset: nat, n: nat)
    requires |seed| >= 3 && n <= COLLISION_CANDIDATE_COUNT
    ensures NoRepeats(CandidatesUpTo(seed, offset, n))
  {
    if n > 0 {
      NoRepeatsUpTo(seed, offset, n - 1);
      var c := Extension(seed, offset, n - 1);
      MemberIff(seed, offset, n - 1, c);
      forall i | 0 <= i < n - 1 ensures c != Extension(seed, offset, i) {
        SuffixDistinct(offset, i, n - 1);
        SameBase(seed[..3], CollisionSuffix(offset + i), CollisionSuffix(offset + n - 1));
      }
    }
  }

  /** Every two-letter suffix is reached, wherever the hash makes the loop start. */
  lemma SuffixReached(offset: nat, value: nat) returns (i: nat)
    requires value < COLLISION_CANDIDATE_COUNT
    ensures i < COLLISION_CANDIDATE_COUNT && CollisionSuffix(offset + i) == CollisionSuffix(value)
  {
    var start := offset % COLLISION_CANDIDATE_COUNT;
    i := if start <= value then value - start else value + COLLISION_CANDIDATE_COUNT - start;
    var rounds := offset / COLLISION_CANDIDATE_COUNT + if start <= value then 0 else 1;
    RemainderOf(offset + i, rounds, value);
  }

  lemma RemainderOf(x: nat, rounds: nat, value: nat)
    requires value < COLLISION_CANDIDATE_COUNT && x == rounds * COLLISION_CANDIDATE_COUNT + value
    ensures x % COLLISION_CANDIDATE_COUNT == value
  {}

  lemma CandidateValid(upperName: string, codes: seq<nat>, c: string)
    requires c in Candidates(upperName, codes)
    ensures ValidPrefix(c)
  {
    var seed, offset := PrefixSeed(upperName), Polynomial(codes) % WORD % COLLISION_CANDIDATE_COUNT;
    MemberIff(seed, offset, COLLISION_CANDIDATE_COUNT, c);
  }

  lemma ExtensionListed(upperName: string, codes: seq<nat>, value: nat)
    requires value < COLLISION_CANDIDATE_COUNT
    ensures PrefixSeed(upperName)[..3] + CollisionSuffix(value) in Candidates(upperName, codes)
  {
    var seed, offset := PrefixSeed(upperName), Polynomial(codes) % WORD % COLLISION_CANDIDATE_COUNT;
    var i := SuffixReached(offset, value);
    var c := seed[..3] + CollisionSuffix(value);
    assert c == Extension(seed, offset, i) && |c| == 5 && |RESERVED_PREFIX| == 4;
    MemberIff(seed, offset, COLLISION_CANDIDATE_COUNT, c);
  }

  // ---- The order of the list ----

  /** What a project would like, in order: its seed, then its base with the 676 pairs of letters, from the hash on. */
  function Wish(upperName: string, codes: seq<nat>, n: nat): string {
    var seed := PrefixSeed(upperName);
    if n == 0 then seed
    else
      var pair := (InBase31(codes) % 0x1_0000_0000 + n - 1) % 676;
      seed[..3] + [('A' as int + pair / 26) as char, ('A' as int + pair % 26) as char]
  }

  lemma WishIsExtension(upperName: string, codes: seq<nat>, n: nat)
    requires n > 0
    ensures var offset := Polynomial(codes) % WORD % COLLISION_CANDIDATE_COUNT;
            Wish(upperName, codes, n) == Extension(PrefixSeed(upperName), offset, n - 1)
  {
    HashIsBase31(codes);
    var hash := Polynomial(codes) % WORD;
    ModuloTwice(hash, n - 1);
  }

  lemma ModuloTwice(a: nat, b: nat)
    ensures (a % 676 + b) % 676 == (a + b) % 676
  {
    assert a + b == a % 676 + b + (a / 676) * 676;
  }

  /** Each place of the list holds a wish, and all earlier wishes come before it. */
  lemma {:induction false} WishUpTo(upperName: string, codes: seq<nat>, turns: nat, x: nat) returns (n: nat)
    requires var offset := Polynomial(codes) % WORD % COLLISION_CANDIDATE_COUNT;
             x < |CandidatesUpTo(PrefixSeed(upperName), offset, turns)|
    ensures var offset := Polynomial(codes) % WORD % COLLISION_CANDIDATE_COUNT;
            var list := CandidatesUpTo(PrefixSeed(upperName), offset, turns);
            && n <= turns && list[x] == Wish(upperName, codes, n)
            && forall m :: 0 <= m < n ==>
                             Wish(upperName, codes, m) == RESERVED_PREFIX || Wish(upperName, codes, m) in list[..x]
    decreases turns
  {
    var seed, offset := PrefixSeed(upperName), Polynomial(codes) % WORD % COLLISION_CANDIDATE_COUNT;
    var list := CandidatesUpTo(seed, offset, turns);
    if turns == 0 {
      n := 0;
    } else {
      var rest := CandidatesUpTo(seed, offset, turns - 1);
      if x < |rest| {
        n := WishUpTo(upperName, codes, turns - 1, x);
        assert list[..x] == rest[..x];
      } else {
        n := turns;
        WishIsExtension(upperName, codes, n);
        assert list[..x] == rest;
        forall m | 0 <= m < n
          ensures Wish(upperName, codes, m) == RESERVED_PREFIX || Wish(upperName, codes, m) in list[..x]
        {
          if m > 0 { WishIsExtension(upperName, codes, m); }
          MemberIff(seed, offset, turns - 1, Wish(upperName, codes, m));
        }
      }
    }
  }

  lemma WishAt(upperName: string, codes: seq<nat>, x: nat) returns (n: nat)
    requires x < |Candidates(upperName, codes)|
    ensures n <= 676 && Candidates(upperName, codes)[x] == Wish(upperName, codes, n)
    ensures forall m :: 0 <= m < n ==>
                          Wish(upperName, codes, m) == "PERS"
                          || Wish(upperName, codes, m) in Candidates(upperName, codes)[..x]
  {
    n := WishUpTo(upperName, codes, COLLISION_CANDIDATE_COUNT, x);
  }

  /** Every wish is in the list, except PERS. */
  lemma WishListed(upperName: string, codes: seq<nat>, n: nat)
    requires n <= 676
    ensures Wish(upperName, codes, n) == "PERS" || Wish(upperName, codes, n) in Candidates(upperName, codes)
  {
    var offset := Polynomial(codes) % WORD % COLLISION_CANDIDATE_COUNT;
    if n > 0 { WishIsExtension(upperName, codes, n); }
    MemberIff(PrefixSeed(upperName), offset, COLLISION_CANDIDATE_COUNT, Wish(upperName, codes, n));
  }

  /** Any two capital letters are a suffix. */
  lemma PairIsSuffix(x: char, y: char)
    requires 'A' <= x <= 'Z' && 'A' <= y <= 'Z'
    ensures var value := (x as int - 65) * 26 + (y as int - 65);
            0 <= value < COLLISION_CANDIDATE_COUNT && CollisionSuffix(value) == [x, y]
  {
    var a, b := x as int - 65, y as int - 65;
    TwoDigits(a, b);
    assert Capital(a) == x && Capital(b) == y;
  }

  lemma TwoDigits(a: nat, b: nat)
    requires a < 26 && b < 26
    ensures a * 26 + b < 676 && (a * 26 + b) / 26 == a && (a * 26 + b) % 26 == b && (a * 26 + b) % 676 == a * 26 + b
  {}

  /** The list has no repeats and only valid prefixes, and holds every two-letter extension of the base. */
  lemma CandidatesComplete(upperName: string, codes: seq<nat>)
    ensures NoRepeats(Candidates(upperName, codes))
    ensures forall c :: c in Candidates(upperName, codes) ==>
                          3 <= |c| <= 5 && (forall k :: 0 <= k < |c| ==> 'A' <= c[k] <= 'Z') && c != "PERS"
    ensures forall x, y :: 'A' <= x <= 'Z' && 'A' <= y <= 'Z' ==>
                             PrefixSeed(upperName)[..3] + [x, y] in Candidates(upperName, codes)
  {
    var seed, offset := PrefixSeed(upperName), Polynomial(codes) % WORD % COLLISION_CANDIDATE_COUNT;
    assert Candidates(upperName, codes) == CandidatesUpTo(seed, offset, COLLISION_CANDIDATE_COUNT);
    NoRepeatsUpTo(seed, offset, COLLISION_CANDIDATE_COUNT);
    forall c | c in Candidates(upperName, codes) ensures ValidPrefix(c) { CandidateValid(upperName, codes, c); }
    forall x, y | 'A' <= x <= 'Z' && 'A' <= y <= 'Z'
      ensures PrefixSeed(upperName)[..3] + [x, y] in Candidates(upperName, codes)
    {
      PairIsSuffix(x, y);
      ExtensionListed(upperName, codes, (x as int - 65) * 26 + (y as int - 65));
    }
  }

  /** The first `n` two-letter extensions of a base. */
  function Extensions(base: string, n: nat): set<string> {
    if n == 0 then {} else Extensions(base, n - 1) + {base + CollisionSuffix(n - 1)}
  }

  lemma {:induction false} ExtensionMember(base: string, n: nat, c: string) returns (v: nat)
    requires c in Extensions(base, n)
    ensures v < n && c == base + CollisionSuffix(v)
  {
    if c in Extensions(base, n - 1) { v := ExtensionMember(base, n - 1, c); } else { v := n - 1; }
  }

  lemma SameBase(base: string, s: string, t: string)
    requires s != t
    ensures base + s != base + t
  {
    assert (base + s)[|base|..] == s && (base + t)[|base|..] == t;
  }

  lemma ExtensionsDiffer(base: string, v: nat, n: nat)
    requires v < n < COLLISION_CANDIDATE_COUNT
    ensures base + CollisionSuffix(v) != base + CollisionSuffix(n)
  {
    SuffixDistinct(0, v, n);
    SameBase(base, CollisionSuffix(v), CollisionSuffix(n));
  }

  lemma {:induction false} ExtensionsCounted(base: string, n: nat)
    requires n <= COLLISION_CANDIDATE_COUNT
    ensures |Extensions(base, n)| == n
  {
    if n > 0 {
      ExtensionsCounted(base, n - 1);
      var c := base + CollisionSuffix(n - 1);
      if c in Extensions(base, n - 1) {
        var v := ExtensionMember(base, n - 1, c);
        ExtensionsDiffer(base, v, n - 1);
      }
    }
  }

  /** Backfill can only run out of candidates when at least 676 prefixes are taken. */
  lemma ExhaustionNeedsManyPrefixes(upperName: string, codes: seq<nat>, taken: set<string>)
    requires forall c :: c in Candidates(upperName, codes) ==> c in taken
    ensures |taken| >= 676
  {
    var base := PrefixSeed(upperName)[..3];
    ExtensionsCounted(base, COLLISION_CANDIDATE_COUNT);
    forall e | e in Extensions(base, COLLISION_CANDIDATE_COUNT) ensures e in taken {
      var v := ExtensionMember(base, COLLISION_CANDIDATE_COUNT, e);
      ExtensionListed(upperName, codes, v);
    }
    SubsetSize(Extensions(base, COLLISION_CANDIDATE_COUNT), taken);
  }
}
