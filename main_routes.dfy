/** The sort key of the routing page's lists (routes/main.py `extract_sort_key`):
    a `[a, b, c]` group hint found in a `grouphint` tag or the label, else a
    `[n]` index in the label, else the label itself. */
module MainRoutes {
  import opened Wrappers
  import opened Text
  import opened NmosDiscovery

  /** A cached sender or receiver: its label (`""` when absent) and its tags. */
  datatype Item = Item(labelText: string, tags: seq<Tag>)

  /** The key: a number triple, or Python's four-tuple `(999, 999, 999, label)`. */
  datatype SortKey = Key(a: nat, b: nat, c: nat) | Unordered(labelText: string)

  const NoIndex: nat := 999

  /** End of the digit run starting at `i` (`\d+` is greedy). */
  function DigitEnd(s: string, i: nat): (j: nat)
    requires i <= |s|
    ensures i <= j <= |s|
    decreases |s| - i
  {
    if i < |s| && IsDigit(s[i]) then DigitEnd(s, i + 1) else i
  }

  /** The digit run is maximal: all digits up to its end, and no digit at its end. */
  lemma {:induction false} DigitEndSpec(s: string, i: nat)
    requires i <= |s|
    ensures forall k :: i <= k < DigitEnd(s, i) ==> IsDigit(s[k])
    ensures DigitEnd(s, i) == |s| || !IsDigit(s[DigitEnd(s, i)])
    decreases |s| - i
  {
    if i < |s| && IsDigit(s[i]) {
      DigitEndSpec(s, i + 1);
    }
  }

  /** End of the whitespace run starting at `i` (`\s*`). */
  function SpaceEnd(s: string, i: nat): (j: nat)
    requires i <= |s|
    ensures i <= j <= |s|
    decreases |s| - i
  {
    if i < |s| && IsSpace(s[i]) then SpaceEnd(s, i + 1) else i
  }

  /** The whitespace run is maximal: all whitespace up to its end, and none at its end. */
  lemma {:induction false} SpaceEndSpec(s: string, i: nat)
    requires i <= |s|
    ensures forall k :: i <= k < SpaceEnd(s, i) ==> IsSpace(s[k])
    ensures SpaceEnd(s, i) == |s| || !IsSpace(s[SpaceEnd(s, i)])
    decreases |s| - i
  {
    if i < |s| && IsSpace(s[i]) {
      SpaceEndSpec(s, i + 1);
    }
  }

  /** `(\d+)` at `i`: the run's value and where it ends. */
  function NumberAt(s: string, i: nat): (r: Option<(nat, nat)>)
    requires i <= |s|
    ensures r.Some? ==> i < r.value.1 <= |s|
  {
    var j := DigitEnd(s, i);
    if j == i then None
    else
      assert AllDigits(s[i..j]) by {
        DigitEndSpec(s, i);
        forall k | 0 <= k < j - i
          ensures IsDigit(s[i..j][k])
        {
          assert s[i..j][k] == s[i + k];
        }
      }
      Some((DigitsValue(s[i..j]), j))
  }

  /** `,\s*(\d+)` at `i`. */
  function NextNumberAt(s: string, i: nat): (r: Option<(nat, nat)>)
    requires i <= |s|
    ensures r.Some? ==> i < r.value.1 <= |s|
  {
    if i < |s| && s[i] == ',' then NumberAt(s, SpaceEnd(s, i + 1)) else None
  }

  /** `\[(\d+),\s*(\d+),\s*(\d+)]` matched at `i`. Every run is maximal: backing off a
      digit or a space can never let the next item match. */
  function TripletAt(s: string, i: nat): Option<(nat, nat, nat)>
    requires i <= |s|
  {
    if i < |s| && s[i] == '[' then
      match NumberAt(s, i + 1)
      case None => None
      case Some((a, j1)) =>
        match NextNumberAt(s, j1)
        case None => None
        case Some((b, j2)) =>
          match NextNumberAt(s, j2)
          case None => None
          case Some((c, j3)) => if j3 < |s| && s[j3] == ']' then Some((a, b, c)) else None
    else None
  }

  /** `\[(\d+)]` matched at `i`. */
  function IndexAt(s: string, i: nat): Option<nat>
    requires i <= |s|
  {
    if i < |s| && s[i] == '[' then
      match NumberAt(s, i + 1)
      case None => None
      case Some((n, j)) => if j < |s| && s[j] == ']' then Some(n) else None
    else None
  }

  /** Position `k` is the first at or after `from` where `f` gives a value. */
  predicate IsFirstSome<T>(f: nat -> Option<T>, from: nat, k: nat) {
    from <= k && f(k).Some? && forall j: nat :: from <= j < k ==> f(j).None?
  }

  /** The value `f` gives at the first position in `from..last` where it gives one. */
  function FirstSome<T>(f: nat -> Option<T>, from: nat, last: nat): (r: Option<T>)
    ensures r.None? <==> forall k: nat :: from <= k <= last ==> f(k).None?
    ensures r.Some? ==> exists k: nat :: k <= last && IsFirstSome(f, from, k) && f(k) == r
    decreases last + 1 - from
  {
    if from > last then None
    else if f(from).Some? then
      assert IsFirstSome(f, from, from);
      f(from)
    else
      var r := FirstSome(f, from + 1, last);
      assert r.Some? ==> exists k: nat :: k <= last && IsFirstSome(f, from, k) && f(k) == r by {
        if r.Some? {
          var k: nat :| k <= last && IsFirstSome(f, from + 1, k) && f(k) == r;
          assert IsFirstSome(f, from, k);
        }
      }
      r
  }

  /** `re.search` for the triplet: the match at the leftmost position of `s`. */
  function FindTriplet(s: string): Option<(nat, nat, nat)> {
    FirstSome((k: nat) => if k <= |s| then TripletAt(s, k) else None, 0, |s|)
  }

  /** `re.search` for the index: the match at the leftmost position of `s`. */
  function FindIndex(s: string): Option<nat> {
    FirstSome((k: nat) => if k <= |s| then IndexAt(s, k) else None, 0, |s|)
  }

  /** Position `k` holds the first value that holds `[`. */
  predicate FirstBracketedAt(values: seq<string>, k: int) {
    0 <= k < |values| && '[' in values[k] && forall j :: 0 <= j < k ==> '[' !in values[j]
  }

  /** The first value holding `[`, or `""`. */
  function FirstBracketed(values: seq<string>): (t: string)
    ensures t == "" <==> forall k :: 0 <= k < |values| ==> '[' !in values[k]
    ensures t != "" ==> exists k :: FirstBracketedAt(values, k) && t == values[k]
  {
    if values == [] then ""
    else if '[' in values[0] then values[0]
    else
      var t := FirstBracketed(values[1..]);
      assert forall k :: 1 <= k < |values| ==> values[k] == values[1..][k - 1];
      t
  }

  /** A tag whose key mentions `grouphint` and that has a value holding `[`. */
  predicate IsHint(tag: Tag) {
    Contains(tag.key, "grouphint") && FirstBracketed(tag.values) != ""
  }

  /** Position `i` holds the first hint tag. */
  predicate FirstHintAt(tags: seq<Tag>, i: int) {
    0 <= i < |tags| && IsHint(tags[i]) && forall j :: 0 <= j < i ==> !IsHint(tags[j])
  }

  /** The `next(...)` over the tags: the first bracketed value under a `grouphint` key,
      in tag order and then value order, or `""`. */
  function FirstHint(tags: seq<Tag>): (t: string)
    ensures t == "" <==> forall i :: 0 <= i < |tags| ==> !IsHint(tags[i])
    ensures t != "" ==> exists i :: FirstHintAt(tags, i) && t == FirstBracketed(tags[i].values)
  {
    if tags == [] then ""
    else if IsHint(tags[0]) then FirstBracketed(tags[0].values)
    else
      var t := FirstHint(tags[1..]);
      assert forall k :: 1 <= k < |tags| ==> tags[k] == tags[1..][k - 1];
      t
  }

  /** `extract_sort_key`. */
  function ExtractSortKey(item: Item): SortKey {
    var lab := Lower(item.labelText);
    var hint := FirstHint(item.tags);
    var text := if hint == "" then lab else hint;
    match FindTriplet(text)
    case Some((a, b, c)) => Key(a, b, c)
    case None =>
      match FindIndex(lab)
      case Some(n) => Key(NoIndex, NoIndex, n)
      case None => Unordered(lab)
  }

  /** A label is read lower-cased, and the fallback key carries it lower-cased. */
  lemma {:induction false} SortKeyIgnoresCase(lab: string, tags: seq<Tag>)
    ensures ExtractSortKey(Item(Lower(lab), tags)) == ExtractSortKey(Item(lab, tags))
    ensures ExtractSortKey(Item(lab, tags)).Unordered? ==> ExtractSortKey(Item(lab, tags)).labelText == Lower(lab)
  {
    LowerIdempotent(lab);
    assert lab[..0] + Lower(lab) == Lower(lab);
  }

  /** A group hint in the tags decides the key whenever it holds a triplet, whatever the
      label says. */
  lemma {:induction false} HintWins(lab: string, tags: seq<Tag>)
    requires FirstHint(tags) != "" && FindTriplet(FirstHint(tags)).Some?
    ensures var (a, b, c) := FindTriplet(FirstHint(tags)).value;
      ExtractSortKey(Item(lab, tags)) == Key(a, b, c)
  {
  }

  /** The `[n]` index is looked for in the label only: a hint holding no triplet and a
      label without `[` give the fallback key, even if the hint holds `[n]`. */
  lemma {:induction false} IndexOnlyFromLabel(lab: string, tags: seq<Tag>)
    requires '[' !in Lower(lab)
    requires FirstHint(tags) != "" ==> FindTriplet(FirstHint(tags)).None?
    ensures ExtractSortKey(Item(lab, tags)) == Unordered(Lower(lab))
  {
    var l := Lower(lab);
    if FirstHint(tags) == "" {
      forall k | 0 <= k <= |l|
        ensures TripletAt(l, k).None?
      {
        if k < |l| {
          assert l[k] in l;
        }
      }
    }
    forall k | 0 <= k <= |l|
      ensures IndexAt(l, k).None?
    {
      if k < |l| {
        assert l[k] in l;
      }
    }
  }

  /** A digit run that is followed by a non-digit is read whole. */
  lemma {:induction false} DigitEndOf(s: string, i: nat, j: nat)
    requires i <= j <= |s|
    requires forall k :: i <= k < j ==> IsDigit(s[k])
    requires j == |s| || !IsDigit(s[j])
    ensures DigitEnd(s, i) == j
    decreases j - i
  {
    if i < j {
      DigitEndOf(s, i + 1, j);
    }
  }

  /** Likewise for a whitespace run. */
  lemma {:induction false} SpaceEndOf(s: string, i: nat, j: nat)
    requires i <= j <= |s|
    requires forall k :: i <= k < j ==> IsSpace(s[k])
    requires j == |s| || !IsSpace(s[j])
    ensures SpaceEnd(s, i) == j
    decreases j - i
  {
    if i < j {
      SpaceEndOf(s, i + 1, j);
    }
  }

  /** A digit run `d` written at `i` and followed by a non-digit is read whole. */
  lemma {:induction false} NumberAtOf(s: string, i: nat, d: string)
    requires d != [] && AllDigits(d)
    requires i + |d| <= |s| && s[i..i + |d|] == d
    requires i + |d| == |s| || !IsDigit(s[i + |d|])
    ensures NumberAt(s, i) == Some((DigitsValue(d), i + |d|))
  {
    forall k | i <= k < i + |d|
      ensures IsDigit(s[k])
    {
      assert s[k] == s[i..i + |d|][k - i];
    }
    DigitEndOf(s, i, i + |d|);
  }

  /** `,` then whitespace `sp` then a digit run `d`, followed by a non-digit. */
  lemma {:induction false} NextNumberAtOf(s: string, i: nat, sp: string, d: string)
    requires forall k :: 0 <= k < |sp| ==> IsSpace(sp[k])
    requires d != [] && AllDigits(d)
    requires i + 1 + |sp| + |d| <= |s| && s[i] == ','
    requires s[i + 1..i + 1 + |sp|] == sp
    requires s[i + 1 + |sp|..i + 1 + |sp| + |d|] == d
    requires i + 1 + |sp| + |d| == |s| || !IsDigit(s[i + 1 + |sp| + |d|])
    ensures NextNumberAt(s, i) == Some((DigitsValue(d), i + 1 + |sp| + |d|))
  {
    var p := i + 1 + |sp|;
    assert !IsSpace(s[p]) by {
      assert s[p] == s[p..p + |d|][0];
      assert IsDigit(d[0]);
    }
    SpaceRunAt(s, i + 1, sp);
    NumberAtOf(s, p, d);
  }

  /** A whitespace run `sp` written at `q` and followed by a non-space is skipped whole. */
  lemma {:induction false} SpaceRunAt(s: string, q: nat, sp: string)
    requires q + |sp| <= |s| && s[q..q + |sp|] == sp
    requires forall k :: 0 <= k < |sp| ==> IsSpace(sp[k])
    requires q + |sp| == |s| || !IsSpace(s[q + |sp|])
    ensures SpaceEnd(s, q) == q + |sp|
  {
    forall k | q <= k < q + |sp|
      ensures IsSpace(s[k])
    {
      assert s[k] == sp[k - q];
    }
    SpaceEndOf(s, q, q + |sp|);
  }

  /** The text of a triplet hint: `[a,` whitespace `b,` whitespace `c]`. */
  function Bracketed(a: nat, b: nat, c: nat, sp1: string, sp2: string): string {
    "[" + NatToString(a) + "," + sp1 + NatToString(b) + "," + sp2 + NatToString(c) + "]"
  }

  /** `s` starts with `[`, digits `A`, `,`, `sp1`, digits `B`, `,`, `sp2`, digits `C`, `]`. */
  predicate HasPieces(s: string, A: string, B: string, C: string, sp1: string, sp2: string) {
    var j1 := 1 + |A|;
    var j2 := j1 + 1 + |sp1| + |B|;
    var j3 := j2 + 1 + |sp2| + |C|;
    && j3 < |s| && s[0] == '[' && s[j1] == ',' && s[j2] == ',' && s[j3] == ']'
    && s[1..j1] == A
    && s[j1 + 1..j1 + 1 + |sp1|] == sp1 && s[j1 + 1 + |sp1|..j2] == B
    && s[j2 + 1..j2 + 1 + |sp2|] == sp2 && s[j2 + 1 + |sp2|..j3] == C
  }

  /** The pieces of a written triplet, read back by position. */
  lemma {:induction false} PiecesOf(A: string, B: string, C: string, sp1: string, sp2: string, post: string)
    ensures HasPieces("[" + A + "," + sp1 + B + "," + sp2 + C + "]" + post, A, B, C, sp1, sp2)
  {
    var j1 := 1 + |A|;
    var j2 := j1 + 1 + |sp1| + |B|;
    var j3 := j2 + 1 + |sp2| + |C|;
    var p1 := "[" + A;
    var p2 := p1 + "," + sp1 + B;
    var p3 := p2 + "," + sp2 + C;
    var s := p3 + "]" + post;
    assert s[..j3] == p3;
    assert p3[..j2] == p2;
    assert p2[..j1] == p1;
    assert s[1..j1] == p1[1..];
    assert s[j1 + 1..j1 + 1 + |sp1|] == p2[j1 + 1..j1 + 1 + |sp1|];
    assert s[j1 + 1 + |sp1|..j2] == p2[j1 + 1 + |sp1|..];
    assert s[j2 + 1..j2 + 1 + |sp2|] == p3[j2 + 1..j2 + 1 + |sp2|];
    assert s[j2 + 1 + |sp2|..j3] == p3[j2 + 1 + |sp2|..];
  }

  /** The triplet pattern matches at `i` once its three numbers and the closing
      bracket are found in sequence. */
  lemma {:induction false} TripletAtSteps(s: string, i: nat, a: nat, j1: nat, b: nat, j2: nat, c: nat, j3: nat)
    requires i < |s| && s[i] == '['
    requires j1 <= |s| && j2 <= |s|
    requires NumberAt(s, i + 1) == Some((a, j1))
    requires NextNumberAt(s, j1) == Some((b, j2))
    requires NextNumberAt(s, j2) == Some((c, j3))
    requires j3 < |s| && s[j3] == ']'
    ensures TripletAt(s, i) == Some((a, b, c))
  {
  }

  /** The first number of a written triplet. */
  lemma {:induction false} FirstPiece(s: string, A: string, B: string, C: string, sp1: string, sp2: string)
    requires A != [] && AllDigits(A)
    requires HasPieces(s, A, B, C, sp1, sp2)
    ensures NumberAt(s, 1) == Some((DigitsValue(A), 1 + |A|))
  {
    NumberAtOf(s, 1, A);
  }

  /** The second number of a written triplet. */
  lemma {:induction false} SecondPiece(s: string, A: string, B: string, C: string, sp1: string, sp2: string)
    requires B != [] && AllDigits(B)
    requires forall k :: 0 <= k < |sp1| ==> IsSpace(sp1[k])
    requires HasPieces(s, A, B, C, sp1, sp2)
    ensures NextNumberAt(s, 1 + |A|) == Some((DigitsValue(B), 1 + |A| + 1 + |sp1| + |B|))
  {
    var j1 := 1 + |A|;
    var j2 := j1 + 1 + |sp1| + |B|;
    assert s[j1] == ',' && s[j2] == ',';
    assert s[j1 + 1..j1 + 1 + |sp1|] == sp1;
    assert s[j1 + 1 + |sp1|..j1 + 1 + |sp1| + |B|] == B;
    NextNumberAtOf(s, j1, sp1, B);
  }

  /** The third number of a written triplet. */
  lemma {:induction false} ThirdPiece(s: string, A: string, B: string, C: string, sp1: string, sp2: string)
    requires C != [] && AllDigits(C)
    requires forall k :: 0 <= k < |sp2| ==> IsSpace(sp2[k])
    requires HasPieces(s, A, B, C, sp1, sp2)
    ensures var j2 := 1 + |A| + 1 + |sp1| + |B|;
      NextNumberAt(s, j2) == Some((DigitsValue(C), j2 + 1 + |sp2| + |C|))
  {
    var j2 := 1 + |A| + 1 + |sp1| + |B|;
    var j3 := j2 + 1 + |sp2| + |C|;
    assert j3 < |s| && s[j2] == ',' && s[j3] == ']';
    assert s[j2 + 1..j2 + 1 + |sp2|] == sp2;
    assert s[j2 + 1 + |sp2|..j2 + 1 + |sp2| + |C|] == C;
    NextNumberAtOf(s, j2, sp2, C);
  }

  /** The pattern reads back the three digit runs of a written triplet. */
  lemma {:induction false} TripletAtOfPieces(s: string, A: string, B: string, C: string, sp1: string, sp2: string)
    requires A != [] && AllDigits(A) && B != [] && AllDigits(B) && C != [] && AllDigits(C)
    requires forall k :: 0 <= k < |sp1| ==> IsSpace(sp1[k])
    requires forall k :: 0 <= k < |sp2| ==> IsSpace(sp2[k])
    requires HasPieces(s, A, B, C, sp1, sp2)
    ensures TripletAt(s, 0) == Some((DigitsValue(A), DigitsValue(B), DigitsValue(C)))
  {
    var j1 := 1 + |A|;
    var j2 := j1 + 1 + |sp1| + |B|;
    var j3 := j2 + 1 + |sp2| + |C|;
    FirstPiece(s, A, B, C, sp1, sp2);
    SecondPiece(s, A, B, C, sp1, sp2);
    ThirdPiece(s, A, B, C, sp1, sp2);
    TripletAtSteps(s, 0, DigitsValue(A), j1, DigitsValue(B), j2, DigitsValue(C), j3);
  }

  /** A written triplet is read back by the pattern, whatever text follows it. */
  lemma {:induction false} TripletAtOf(a: nat, b: nat, c: nat, sp1: string, sp2: string, post: string)
    requires forall k :: 0 <= k < |sp1| ==> IsSpace(sp1[k])
    requires forall k :: 0 <= k < |sp2| ==> IsSpace(sp2[k])
    ensures TripletAt(Bracketed(a, b, c, sp1, sp2) + post, 0) == Some((a, b, c))
  {
    NatToStringDigits(a);
    NatToStringDigits(b);
    NatToStringDigits(c);
    PiecesOf(NatToString(a), NatToString(b), NatToString(c), sp1, sp2, post);
    TripletAtOfPieces(Bracketed(a, b, c, sp1, sp2) + post, NatToString(a), NatToString(b), NatToString(c), sp1, sp2);
  }

  /** Text without ASCII capitals, which lower-casing leaves alone. */
  predicate NoCapitals(s: string) {
    forall k :: 0 <= k < |s| ==> !('A' <= s[k] <= 'Z')
  }

  lemma {:induction false} LowerOfNoCapitals(s: string)
    requires NoCapitals(s)
    ensures Lower(s) == s
  {
  }

  lemma {:induction false} NoCapitalsAppend(x: string, y: string)
    requires NoCapitals(x) && NoCapitals(y)
    ensures NoCapitals(x + y)
  {
    forall k | 0 <= k < |x + y|
      ensures !('A' <= (x + y)[k] <= 'Z')
    {
      if k >= |x| {
        assert (x + y)[k] == y[k - |x|];
      }
    }
  }

  /** A written triplet holds digits, whitespace and punctuation only. */
  lemma {:induction false} BracketedNoCapitals(a: nat, b: nat, c: nat, sp1: string, sp2: string)
    requires forall k :: 0 <= k < |sp1| ==> IsSpace(sp1[k])
    requires forall k :: 0 <= k < |sp2| ==> IsSpace(sp2[k])
    ensures NoCapitals(Bracketed(a, b, c, sp1, sp2))
  {
    NatToStringDigits(a);
    NatToStringDigits(b);
    NatToStringDigits(c);
    var A, B, C := NatToString(a), NatToString(b), NatToString(c);
    NoCapitalsAppend("[", A);
    NoCapitalsAppend("[" + A, ",");
    NoCapitalsAppend("[" + A + ",", sp1);
    NoCapitalsAppend("[" + A + "," + sp1, B);
    NoCapitalsAppend("[" + A + "," + sp1 + B, ",");
    NoCapitalsAppend("[" + A + "," + sp1 + B + ",", sp2);
    NoCapitalsAppend("[" + A + "," + sp1 + B + "," + sp2, C);
    NoCapitalsAppend("[" + A + "," + sp1 + B + "," + sp2 + C, "]");
  }

  /** A label that starts with a written triplet, on an item without a group hint, sorts
      by that triplet, whatever lower-case text follows it. */
  lemma {:induction false} TripletLabelRoundTrip(a: nat, b: nat, c: nat, sp1: string, sp2: string, post: string)
    requires forall k :: 0 <= k < |sp1| ==> IsSpace(sp1[k])
    requires forall k :: 0 <= k < |sp2| ==> IsSpace(sp2[k])
    requires NoCapitals(post)
    ensures ExtractSortKey(Item(Bracketed(a, b, c, sp1, sp2) + post, [])) == Key(a, b, c)
  {
    BracketedNoCapitals(a, b, c, sp1, sp2);
    NoCapitalsAppend(Bracketed(a, b, c, sp1, sp2), post);
    LowerOfNoCapitals(Bracketed(a, b, c, sp1, sp2) + post);
    TripletAtOf(a, b, c, sp1, sp2, post);
  }

  /** `[d]` for a digit run `d`: the index pattern reads it and the triplet pattern does not. */
  lemma {:induction false} IndexOfDigits(d: string)
    requires d != [] && AllDigits(d)
    ensures FindIndex("[" + d + "]") == Some(DigitsValue(d))
    ensures FindTriplet("[" + d + "]").None?
  {
    var s := "[" + d + "]";
    assert s[1..1 + |d|] == d;
    NumberAtOf(s, 1, d);
    assert IndexAt(s, 0) == Some(DigitsValue(d));
    forall k | 0 <= k <= |s|
      ensures TripletAt(s, k).None?
    {
      if 0 < k < |s| {
        assert s[k] != '[' by {
          if k < 1 + |d| {
            assert s[k] == d[k - 1];
          }
        }
      }
    }
  }

  /** A label `[n]` sorts as `(999, 999, n)`. */
  lemma {:induction false} IndexLabelRoundTrip(n: nat)
    ensures ExtractSortKey(Item("[" + NatToString(n) + "]", [])) == Key(NoIndex, NoIndex, n)
  {
    var d := NatToString(n);
    NatToStringDigits(n);
    NoCapitalsAppend("[", d);
    NoCapitalsAppend("[" + d, "]");
    LowerOfNoCapitals("[" + d + "]");
    IndexOfDigits(d);
  }
}
