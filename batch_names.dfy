/**
  The batch driver's file-name handling in src/analyticwaveform.py: the input
  name is matched (with re.match, so anchored at the start only) against
    (.+)raw/(CookieBox_waveforms.(\d+)pulses.image(\d+)).dat
  where '.' is any character but a newline and every quantifier is greedy
  with backtracking; the digit groups give the pulse count and the image
  index, and the three output paths are derived from groups 1 and 2.
 */
module BatchNames {
  import opened Wrappers

  predicate IsDigit(c: char) { '0' <= c <= '9' }

  predicate AllDigits(s: string) { forall i :: 0 <= i < |s| ==> IsDigit(s[i]) }

  predicate NoNewline(s: string) { forall i :: 0 <= i < |s| ==> s[i] != '\n' }

  function Pow10(n: nat): (p: nat)
    ensures p >= 1
  {
    if n == 0 then 1 else 10 * Pow10(n - 1)
  }

  /** Python's int() of a string of ASCII digits (leading zeros allowed): below 10 to the number of digits. */
  function DecimalValue(ds: string): (v: nat)
    requires AllDigits(ds)
    ensures v < Pow10(|ds|)
  {
    if ds == [] then 0
    else DecimalValue(ds[..|ds| - 1]) * 10 + (ds[|ds| - 1] as int - '0' as int)
  }

  /** Leading zeros do not change the value int() reads. */
  lemma {:induction false} LeadingZero(ds: string)
    requires AllDigits(ds)
    ensures DecimalValue("0" + ds) == DecimalValue(ds)
    decreases |ds|
  {
    if ds != [] {
      var init := ds[..|ds| - 1];
      assert ("0" + ds)[..|ds|] == "0" + init;
      LeadingZero(init);
    }
  }

  /** The decimal numeral of n, without leading zeros. */
  function Decimal(n: nat): (ds: string)
    ensures ds != [] && AllDigits(ds)
  {
    if n < 10 then [('0' as int + n) as char]
    else Decimal(n / 10) + [('0' as int + n % 10) as char]
  }

  lemma {:induction false} DecimalRoundTrip(n: nat)
    ensures DecimalValue(Decimal(n)) == n
  {
    var ds := Decimal(n);
    if n >= 10 {
      DecimalRoundTrip(n / 10);
      assert ds[..|ds| - 1] == Decimal(n / 10);
    }
  }

  /** The literal lit occurs in s starting at index i. */
  predicate HasAt(s: string, i: nat, lit: string)
  {
    i + |lit| <= |s| && s[i..i + |lit|] == lit
  }

  /** Length of the longest run of digits starting at index i: what a greedy \d* takes. */
  function DigitRun(s: string, i: nat): (k: nat)
    requires i <= |s|
    ensures i + k <= |s|
    ensures forall m :: i <= m < i + k ==> IsDigit(s[m])
    ensures i + k == |s| || !IsDigit(s[i + k])
    decreases |s| - i
  {
    if i < |s| && IsDigit(s[i]) then 1 + DigitRun(s, i + 1) else 0
  }

  /** Length of the longest newline-free run from index i: what a greedy .* takes. */
  function LineRun(s: string, i: nat): (k: nat)
    requires i <= |s|
    ensures i + k <= |s|
    ensures forall m :: i <= m < i + k ==> s[m] != '\n'
    ensures i + k == |s| || s[i + k] == '\n'
    decreases |s| - i
  {
    if i < |s| && s[i] != '\n' then 1 + LineRun(s, i + 1) else 0
  }

  /** The digits t[a..b], a run that a \d+ group may take. */
  predicate DigitsBetween(t: string, a: nat, b: nat)
  {
    a <= b <= |t| && forall m :: a <= m < b ==> IsDigit(t[m])
  }

  /** "raw/CookieBox_waveforms" and one more character at the start of t. */
  predicate HeadAt(t: string)
  {
    HasAt(t, 0, "raw/CookieBox_waveforms") && 23 < |t| && t[23] != '\n'
  }

  /** Group 3 takes j1 digits and is followed by "pulses", a character and "image". */
  predicate PulsesAt(t: string, j1: nat)
  {
    1 <= j1 && DigitsBetween(t, 24, 24 + j1) && HasAt(t, 24 + j1, "pulses")
    && 30 + j1 < |t| && t[30 + j1] != '\n' && HasAt(t, 31 + j1, "image")
  }

  /** After j digits of group 4 starting at q come a character and "dat". */
  predicate ImageEndsAt(t: string, q: nat, j: nat)
  {
    q + j < |t| && t[q + j] != '\n' && HasAt(t, q + j + 1, "dat")
  }

  /**
    What the part of the pattern after (.+) requires of t, when group 3 has
    j1 digits and group 4 has j2 digits.
   */
  predicate TailShape(t: string, j1: nat, j2: nat)
  {
    HeadAt(t) && PulsesAt(t, j1)
    && 1 <= j2 && DigitsBetween(t, 36 + j1, 36 + j1 + j2) && ImageEndsAt(t, 36 + j1, j2)
  }

  /**
    How a greedy quantifier settles under backtracking: the largest count in
    1..n for which the rest of the pattern matches (ok), if there is one.
   */
  function Greedy(n: nat, ok: nat -> bool): (r: Option<nat>)
    ensures r.Some? ==> 1 <= r.value <= n && ok(r.value)
    ensures r.Some? ==> forall j :: r.value < j <= n ==> !ok(j)
    ensures r.None? ==> forall j :: 1 <= j <= n ==> !ok(j)
  {
    if n == 0 then None
    else if ok(n) then Some(n)
    else Greedy(n - 1, ok)
  }

  /** Greedy settles on k when k fits and every larger count fails. */
  lemma GreedyPicks(n: nat, ok: nat -> bool, k: nat)
    requires 1 <= k <= n && ok(k)
    requires forall j :: k < j <= n ==> !ok(j)
    ensures Greedy(n, ok) == Some(k)
  {
  }

  /** Group 4 (\d+) starting at q, then any character and "dat": its length. */
  function ImageGroup(t: string, q: nat): Option<nat>
    requires q <= |t|
  {
    Greedy(DigitRun(t, q), (j: nat) => ImageEndsAt(t, q, j))
  }

  /** Group 3 (\d+) and everything after it: the lengths of groups 3 and 4. */
  function PulsesGroup(t: string): Option<(nat, nat)>
    requires 24 <= |t|
  {
    match Greedy(DigitRun(t, 24), (j: nat) => PulsesAt(t, j) && 36 + j <= |t| && ImageGroup(t, 36 + j).Some?)
    case None => None
    case Some(j1) => Some((j1, ImageGroup(t, 36 + j1).value))
  }

  /** The pattern after (.+), matched at the start of t: the lengths of groups 3 and 4. */
  function TailMatch(t: string): Option<(nat, nat)>
  {
    if HeadAt(t) then PulsesGroup(t) else None
  }

  lemma TailMatchSound(t: string)
    requires TailMatch(t).Some?
    ensures TailShape(t, TailMatch(t).value.0, TailMatch(t).value.1)
  {
    var j1 := TailMatch(t).value.0;
    var k1 := DigitRun(t, 24);
    assert 1 <= j1 <= k1 && PulsesAt(t, j1) && ImageGroup(t, 36 + j1).Some?;
    var j2 := ImageGroup(t, 36 + j1).value;
    assert j2 <= DigitRun(t, 36 + j1) && ImageEndsAt(t, 36 + j1, j2);
  }

  /** Where the greedy (.+) stops: the longest newline-free prefix after which the rest matches. */
  function PrefixLength(s: string): Option<nat>
  {
    Greedy(LineRun(s, 0), PrefixOk(s))
  }

  /** Whether the rest of the pattern matches after the first p characters of s. */
  function PrefixOk(s: string): nat -> bool
  {
    (p: nat) => p <= |s| && TailMatch(s[p..]).Some?
  }

  /** The five groups of a successful match, as strings. */
  datatype Groups = Groups(whole: string, prefix: string, stem: string, pulses: string, image: string)

  /**
    re.match of the batch file-name pattern; None when no newline-free prefix
    is followed by a match of the rest. Otherwise (.+) takes such a prefix,
    the longest one (MatchLongest); MatchGroups and MatchShape give the
    groups' layout.
   */
  function MatchName(s: string): (r: Option<Groups>)
    ensures r.None? ==> forall p :: 1 <= p <= LineRun(s, 0) ==> !PrefixOk(s)(p)
    ensures r.Some? ==> 1 <= |r.value.prefix| <= LineRun(s, 0) && PrefixOk(s)(|r.value.prefix|)
  {
    match PrefixLength(s)
    case None => None
    case Some(p) =>
      var tail := TailMatch(s[p..]);
      TailMatchSound(s[p..]);
      Some(GroupsAt(s, p, tail.value.0, tail.value.1))
  }

  /** Backtracking gives (.+) back only as far as needed: no longer prefix is followed by a match. */
  lemma MatchLongest(s: string)
    requires MatchName(s).Some?
    ensures forall p :: |MatchName(s).value.prefix| < p <= LineRun(s, 0) ==> !PrefixOk(s)(p)
  {
  }

  /** The groups when (.+) takes p characters and groups 3 and 4 take j1 and j2 digits. */
  function GroupsAt(s: string, p: nat, j1: nat, j2: nat): Groups
    requires p + 40 + j1 + j2 <= |s|
  {
    var t := s[p..];
    Groups(s[..p + 40 + j1 + j2], s[..p], t[4..36 + j1 + j2], t[24..24 + j1], t[36 + j1..36 + j1 + j2])
  }

  /** The stem (group 2): the fixed words, two separator characters and the digit groups. */
  predicate StemShape(stem: string, pulses: string, image: string)
  {
    && |stem| == 32 + |pulses| + |image|
    && stem[19] != '\n' && stem[26 + |pulses|] != '\n'
    && stem == "CookieBox_waveforms" + [stem[19]] + pulses + "pulses" + [stem[26 + |pulses|]] + "image" + image
  }

  /** The whole match (group 0): prefix, "raw/", stem, one character and "dat". */
  predicate WholeShape(whole: string, prefix: string, stem: string)
  {
    && |whole| == |prefix| + |stem| + 8
    && whole[|whole| - 4] != '\n'
    && whole == prefix + "raw/" + stem + [whole[|whole| - 4]] + "dat"
  }

  lemma StemOfTail(t: string, j1: nat, j2: nat)
    requires TailShape(t, j1, j2)
    ensures StemShape(t[4..36 + j1 + j2], t[24..24 + j1], t[36 + j1..36 + j1 + j2])
  {
    var q2 := 36 + j1;
    var stem := t[4..q2 + j2];
    assert t[..23] == "raw/CookieBox_waveforms";
    assert t[4..23] == "CookieBox_waveforms";
    assert t[24 + j1..30 + j1] == "pulses";
    assert t[31 + j1..36 + j1] == "image";
    assert stem == t[4..23] + [t[23]] + t[24..24 + j1] + t[24 + j1..30 + j1] + [t[30 + j1]]
                   + t[31 + j1..q2] + t[q2..q2 + j2];
  }

  lemma WholeOfTail(s: string, p: nat, j1: nat, j2: nat)
    requires p <= |s| && TailShape(s[p..], j1, j2)
    ensures var t, e := s[p..], p + 40 + j1 + j2;
      WholeShape(s[..e], s[..p], t[4..36 + j1 + j2])
  {
    var t := s[p..];
    var m := 36 + j1 + j2;
    assert s[p..p + 4] == t[..4] == "raw/";
    assert s[p + m + 1..p + m + 4] == t[m + 1..m + 4] == "dat";
    assert t[4..m] == s[p + 4..p + m];
    WholeLayout(s, p, m);
  }

  lemma WholeLayout(s: string, p: nat, m: nat)
    requires 4 <= m && p + m + 4 <= |s| && s[p..p + 4] == "raw/" && s[p + m + 1..p + m + 4] == "dat"
    ensures s[..p + m + 4] == s[..p] + "raw/" + s[p + 4..p + m] + [s[p + m]] + "dat"
  {
    SliceConcat(s, 0, p, p + m + 4);
    SliceConcat(s, p, p + 4, p + m + 4);
    SliceConcat(s, p + 4, p + m, p + m + 4);
    SliceConcat(s, p + m, p + m + 1, p + m + 4);
  }

  lemma SliceConcat(s: string, a: nat, b: nat, c: nat)
    requires a <= b <= c <= |s|
    ensures s[a..c] == s[a..b] + s[b..c]
  {
  }

  /** The groups of a match in terms of the prefix length and the two digit counts. */
  lemma MatchUnfold(s: string) returns (p: nat, j1: nat, j2: nat)
    requires MatchName(s).Some?
    ensures 1 <= p <= LineRun(s, 0) && TailShape(s[p..], j1, j2)
    ensures MatchName(s).value == Groups(s[..p + 40 + j1 + j2], s[..p], s[p..][4..36 + j1 + j2],
                                         s[p..][24..24 + j1], s[p..][36 + j1..36 + j1 + j2])
  {
    p := PrefixLength(s).value;
    var t := s[p..];
    j1, j2 := TailMatch(t).value.0, TailMatch(t).value.1;
    TailMatchSound(t);
    assert MatchName(s).value == GroupsAt(s, p, j1, j2);
  }

  /** A match covers a start of the name; its prefix and digit groups are well formed. */
  lemma MatchGroups(s: string)
    requires MatchName(s).Some?
    ensures var g := MatchName(s).value;
      && g.whole <= s
      && g.prefix != [] && NoNewline(g.prefix)
      && g.pulses != [] && AllDigits(g.pulses)
      && g.image != [] && AllDigits(g.image)
  {
    var p, j1, j2 := MatchUnfold(s);
  }

  /** The whole match and the stem have exactly the layout the pattern spells out. */
  lemma MatchShape(s: string)
    requires MatchName(s).Some?
    ensures var g := MatchName(s).value;
      WholeShape(g.whole, g.prefix, g.stem) && StemShape(g.stem, g.pulses, g.image)
  {
    var p, j1, j2 := MatchUnfold(s);
    StemOfTail(s[p..], j1, j2);
    WholeOfTail(s, p, j1, j2);
  }

  /** One file of the batch: the waveform file read and the three outputs written. */
  datatype Job = Job(
    source: string, npulses: nat, image: nat,
    deconvOut: string, homoRealOut: string, homoImagOut: string)

  /** What the batch driver does with one name from the command line; None: the name is skipped. */
  function PlanJob(fname: string): (r: Option<Job>)
    ensures r.Some? <==> MatchName(fname).Some?
  {
    match MatchName(fname)
    case None => None
    case Some(g) =>
      MatchGroups(fname);
      var base := g.prefix + "processed/" + g.stem;
      Some(Job(g.whole, DecimalValue(g.pulses), DecimalValue(g.image),
               base + ".deconv.out", base + ".homodeconv.real.out", base + ".homodeconv.imag.out"))
  }

  /**
    The three outputs of a job are different files, and none of them is the
    waveform file it was computed from (that one ends in "dat", they in "out").
   */
  lemma OutputsDistinct(fname: string)
    requires PlanJob(fname).Some?
    ensures var j := PlanJob(fname).value;
      && j.deconvOut != j.homoRealOut && j.deconvOut != j.homoImagOut && j.homoRealOut != j.homoImagOut
      && j.source != j.deconvOut && j.source != j.homoRealOut && j.source != j.homoImagOut
  {
    var g := MatchName(fname).value;
    MatchShape(fname);
    var j := PlanJob(fname).value;
    var base := g.prefix + "processed/" + g.stem;
    assert j.source[|j.source| - 2] == 'a';
    assert j.deconvOut[|j.deconvOut| - 2] == 'u';
    assert j.homoRealOut[|j.homoRealOut| - 2] == 'u';
    assert j.homoImagOut[|j.homoImagOut| - 2] == 'u';
    assert j.homoRealOut[|base| + 12] == 'r' && j.homoImagOut[|base| + 12] == 'i';
  }

  /** The part of a conventional batch file name after its prefix, for digit groups d1 and d2. */
  function TailOf(d1: string, d2: string): string
  {
    "raw/CookieBox_waveforms." + d1 + "pulses.image" + d2 + ".dat"
  }

  /** What follows "raw/" in such a name. */
  function RestOf(d1: string, d2: string): string
  {
    "CookieBox_waveforms." + d1 + "pulses.image" + d2 + ".dat"
  }

  lemma TailRest(d1: string, d2: string)
    ensures TailOf(d1, d2) == "raw/" + RestOf(d1, d2)
  {
  }

  lemma DigitRunExact(s: string, i: nat, k: nat)
    requires i + k <= |s| && (forall m :: i <= m < i + k ==> IsDigit(s[m]))
    requires i + k == |s| || !IsDigit(s[i + k])
    ensures DigitRun(s, i) == k
    decreases k
  {
    if k > 0 {
      DigitRunExact(s, i + 1, k - 1);
    }
  }

  lemma PulsesOfTail(d1: string, d2: string)
    requires d1 != [] && AllDigits(d1)
    ensures HeadAt(TailOf(d1, d2)) && DigitRun(TailOf(d1, d2), 24) == |d1| && PulsesAt(TailOf(d1, d2), |d1|)
  {
    var rest := "pulses.image" + d2 + ".dat";
    assert TailOf(d1, d2) == "raw/CookieBox_waveforms." + d1 + rest;
    assert rest[..6] == "pulses" && rest[7..12] == "image";
    PulsesOfParts(d1, rest);
  }

  lemma PulsesOfParts(d1: string, rest: string)
    requires d1 != [] && AllDigits(d1)
    requires 12 <= |rest| && rest[..6] == "pulses" && rest[6] != '\n' && rest[7..12] == "image"
    ensures var t := "raw/CookieBox_waveforms." + d1 + rest;
      HeadAt(t) && DigitRun(t, 24) == |d1| && PulsesAt(t, |d1|)
  {
    var t := "raw/CookieBox_waveforms." + d1 + rest;
    assert t[..23] == "raw/CookieBox_waveforms";
    assert t[24..24 + |d1|] == d1;
    assert t[24 + |d1|..] == rest;
    DigitRunExact(t, 24, |d1|);
  }

  lemma ImageOfTail(d1: string, d2: string)
    requires d2 != [] && AllDigits(d2)
    ensures var t, q2 := TailOf(d1, d2), 36 + |d1|;
      q2 <= |t| && DigitRun(t, q2) == |d2| && ImageEndsAt(t, q2, |d2|)
  {
    var t, q2 := TailOf(d1, d2), 36 + |d1|;
    var head := "raw/CookieBox_waveforms." + d1 + "pulses.image";
    assert t == head + d2 + ".dat" && |head| == q2;
    assert t[q2..q2 + |d2|] == d2;
    assert t[q2 + |d2|..] == ".dat";
    DigitRunExact(t, q2, |d2|);
    assert t[q2 + |d2| + 1..q2 + |d2| + 4] == "dat";
  }

  lemma TailOfMatches(d1: string, d2: string)
    requires d1 != [] && AllDigits(d1) && d2 != [] && AllDigits(d2)
    ensures TailMatch(TailOf(d1, d2)) == Some((|d1|, |d2|))
  {
    PulsesOfTail(d1, d2);
    ImageOfTail(d1, d2);
    TailMatchOf(TailOf(d1, d2), |d1|, |d2|);
  }

  /** When both digit runs are exactly as long as the groups, the tail match takes them whole. */
  lemma TailMatchOf(t: string, j1: nat, j2: nat)
    requires HeadAt(t) && DigitRun(t, 24) == j1 && PulsesAt(t, j1)
    requires 36 + j1 <= |t| && 1 <= j2 && DigitRun(t, 36 + j1) == j2 && ImageEndsAt(t, 36 + j1, j2)
    ensures TailMatch(t) == Some((j1, j2))
  {
    GreedyPicks(j2, (j: nat) => ImageEndsAt(t, 36 + j1, j), j2);
    assert ImageGroup(t, 36 + j1) == Some(j2);
    GreedyPicks(j1, (j: nat) => PulsesAt(t, j) && 36 + j <= |t| && ImageGroup(t, 36 + j).Some?, j1);
  }

  predicate NoSlash(s: string) { forall m :: 0 <= m < |s| ==> s[m] != '/' }

  lemma NoSlashConcat(a: string, b: string)
    requires NoSlash(a) && NoSlash(b)
    ensures NoSlash(a + b)
  {
  }

  lemma NoSlashRest(d1: string, d2: string)
    requires AllDigits(d1) && AllDigits(d2)
    ensures NoSlash(RestOf(d1, d2))
  {
    NoSlashConcat("CookieBox_waveforms.", d1);
    NoSlashConcat("CookieBox_waveforms." + d1, "pulses.image");
    NoSlashConcat("CookieBox_waveforms." + d1 + "pulses.image", d2);
    NoSlashConcat("CookieBox_waveforms." + d1 + "pulses.image" + d2, ".dat");
  }

  /** With no '/' after "raw/", the head of the pattern cannot start past the prefix. */
  lemma NoHeadAfter(prefix: string, rest: string, p: nat)
    requires NoSlash(rest) && |prefix| < p <= |prefix| + 4 + |rest|
    ensures !HeadAt((prefix + "raw/" + rest)[p..])
  {
    var s := prefix + "raw/" + rest;
    var x := s[p..];
    if 23 <= |x| {
      assert x[3] == rest[p - |prefix| - 1];
      assert x[..23][3] != "raw/CookieBox_waveforms"[3];
    }
  }

  lemma NoNewlineConcat(a: string, b: string)
    requires NoNewline(a) && NoNewline(b)
    ensures NoNewline(a + b)
  {
  }

  lemma NoNewlineRest(d1: string, d2: string)
    requires AllDigits(d1) && AllDigits(d2)
    ensures NoNewline(RestOf(d1, d2))
  {
    NoNewlineConcat("CookieBox_waveforms.", d1);
    NoNewlineConcat("CookieBox_waveforms." + d1, "pulses.image");
    NoNewlineConcat("CookieBox_waveforms." + d1 + "pulses.image", d2);
    NoNewlineConcat("CookieBox_waveforms." + d1 + "pulses.image" + d2, ".dat");
  }

  /**
    If the tail matches at the end of a newline-free prefix and no later
    "raw/" exists, the greedy (.+) stops exactly at the end of the prefix.
   */
  lemma PrefixStops(prefix: string, rest: string)
    requires prefix != [] && NoNewline(prefix) && NoNewline(rest) && NoSlash(rest)
    requires TailMatch("raw/" + rest).Some?
    ensures PrefixLength(prefix + ("raw/" + rest)) == Some(|prefix|)
  {
    var t := "raw/" + rest;
    var s := prefix + t;
    assert NoNewline("raw/");
    NoNewlineConcat("raw/", rest);
    NoNewlineConcat(prefix, t);
    assert LineRun(s, 0) == |s|;
    assert s[|prefix|..] == t;
    assert PrefixOk(s)(|prefix|);
    forall p | |prefix| < p <= |s| ensures !PrefixOk(s)(p) {
      assert s == prefix + "raw/" + rest;
      NoHeadAfter(prefix, rest, p);
    }
    GreedyPicks(|s|, PrefixOk(s), |prefix|);
  }

  lemma GroupsOfTail(d1: string, d2: string)
    ensures var t := TailOf(d1, d2);
      && |t| == 40 + |d1| + |d2|
      && t[4..36 + |d1| + |d2|] == "CookieBox_waveforms." + d1 + "pulses.image" + d2
      && t[24..24 + |d1|] == d1
      && t[36 + |d1|..36 + |d1| + |d2|] == d2
  {
  }

  /** The groups of prefix + t when (.+) stops after prefix and the tail match spans all of t. */
  lemma MatchAt(prefix: string, t: string, j1: nat, j2: nat)
    requires PrefixLength(prefix + t) == Some(|prefix|)
    requires TailMatch(t) == Some((j1, j2)) && |t| == 40 + j1 + j2
    ensures MatchName(prefix + t) ==
      Some(Groups(prefix + t, prefix, t[4..36 + j1 + j2], t[24..24 + j1], t[36 + j1..36 + j1 + j2]))
  {
    var s := prefix + t;
    assert s[|prefix|..] == t;
    assert MatchName(s) == Some(GroupsAt(s, |prefix|, j1, j2));
    GroupsOfConcat(prefix, t, j1, j2);
  }

  lemma GroupsOfConcat(prefix: string, t: string, j1: nat, j2: nat)
    requires |t| == 40 + j1 + j2
    ensures GroupsAt(prefix + t, |prefix|, j1, j2) ==
      Groups(prefix + t, prefix, t[4..36 + j1 + j2], t[24..24 + j1], t[36 + j1..36 + j1 + j2])
  {
    var s := prefix + t;
    assert s[|prefix|..] == t;
    assert s[..|prefix|] == prefix;
    assert s[..|prefix| + 40 + j1 + j2] == s;
  }

  /** The prefix, stem and digit groups of a name made of prefix + TailOf(d1, d2). */
  lemma MatchOfTail(prefix: string, d1: string, d2: string)
    requires prefix != [] && NoNewline(prefix)
    requires d1 != [] && AllDigits(d1) && d2 != [] && AllDigits(d2)
    ensures MatchName(prefix + TailOf(d1, d2)) ==
      Some(Groups(prefix + TailOf(d1, d2), prefix, "CookieBox_waveforms." + d1 + "pulses.image" + d2, d1, d2))
  {
    NoSlashRest(d1, d2);
    NoNewlineRest(d1, d2);
    TailOfMatches(d1, d2);
    TailRest(d1, d2);
    PrefixStops(prefix, RestOf(d1, d2));
    GroupsOfTail(d1, d2);
    MatchAt(prefix, TailOf(d1, d2), |d1|, |d2|);
  }

  /**
    A name that follows the convention exactly is matched with its own prefix,
    pulse count and image index, and the outputs go next to raw/ under processed/.
   */
  lemma CanonicalRoundTrip(prefix: string, n: nat, i: nat)
    requires prefix != [] && NoNewline(prefix)
    ensures var stem := "CookieBox_waveforms." + Decimal(n) + "pulses.image" + Decimal(i);
      var base := prefix + "processed/" + stem;
      PlanJob(prefix + TailOf(Decimal(n), Decimal(i))) == Some(Job(prefix + TailOf(Decimal(n), Decimal(i)), n, i,
        base + ".deconv.out", base + ".homodeconv.real.out", base + ".homodeconv.imag.out"))
  {
    MatchOfTail(prefix, Decimal(n), Decimal(i));
    DecimalRoundTrip(n);
    DecimalRoundTrip(i);
  }
}
