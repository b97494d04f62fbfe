/** Removal of the secondary streams of SMPTE 2022-7 style duplicated SDP
    (the `a=group:DUP` grouping of RFC 7104 over the session description
    format of RFC 8866), utils/sdp_filter.py. Only the first mid of each
    DUP group is kept; a media section whose mid is a later member is dropped. */
module SdpFilter {
  import opened Wrappers
  import opened Text

  predicate IsDupLine(line: string) {
    StartsWith(line, "a=group:DUP")
  }

  predicate IsMediaLine(line: string) {
    StartsWith(line, "m=")
  }

  predicate IsMidLine(line: string) {
    StartsWith(line, "a=mid:")
  }

  /** Python's `xs[n:]`, which is empty when `n` is past the end. */
  function DropFront(xs: seq<string>, n: nat): (r: seq<string>)
    ensures |r| == if n <= |xs| then |xs| - n else 0
  {
    if n <= |xs| then xs[n..] else []
  }

  /** The mids one DUP line adds to the skip set: its whitespace-separated
      tokens after the `a=group:DUP` token and after the first mid. */
  function DupMids(line: string): seq<string> {
    DropFront(DropFront(SplitWs(Strip(line)), 1), 1)
  }

  /** The mids a DUP line adds, as a set (`skip_mids.update(mids[1:])`). */
  function DupSkips(line: string): set<string> {
    set m | m in DupMids(line)
  }

  /** The mids one line contributes to the skip set. */
  function LineSkips(line: string): set<string> {
    if IsDupLine(line) then DupSkips(line) else {}
  }

  /** The union of `f` over `lines`, accumulated front to back. */
  function UnionOver(lines: seq<string>, f: string -> set<string>): set<string>
    decreases |lines|
  {
    if lines == [] then {} else UnionOver(lines[..|lines| - 1], f) + f(lines[|lines| - 1])
  }

  lemma {:induction false} UnionOverMembers(lines: seq<string>, f: string -> set<string>, m: string)
    ensures m in UnionOver(lines, f) <==> exists i :: 0 <= i < |lines| && m in f(lines[i])
    decreases |lines|
  {
    if lines != [] {
      var n := |lines| - 1;
      var init := lines[..n];
      UnionOverMembers(init, f, m);
      if m in UnionOver(init, f) {
        var i :| 0 <= i < |init| && m in f(init[i]);
        assert lines[i] == init[i];
      }
      if i :| 0 <= i < |lines| && m in f(lines[i]) {
        if i < n {
          assert init[i] == lines[i];
        }
      }
    }
  }

  /** The skip set the first pass collects over `lines`. */
  function SkipMids(lines: seq<string>): set<string> {
    UnionOver(lines, LineSkips)
  }

  /** Reading one more line adds that line's mids to the skip set. */
  lemma {:induction false} SkipMidsStep(lines: seq<string>, i: nat)
    requires i < |lines|
    ensures SkipMids(lines[..i + 1]) == SkipMids(lines[..i]) + LineSkips(lines[i])
  {
    assert lines[..i + 1][..i] == lines[..i];
  }

  /** The skip set is the union, over all DUP lines, of the mids after each line's first. */
  lemma {:induction false} SkipMidsMembers(lines: seq<string>, m: string)
    ensures m in SkipMids(lines) <==> exists i :: 0 <= i < |lines| && IsDupLine(lines[i]) && m in DupMids(lines[i])
  {
    UnionOverMembers(lines, LineSkips, m);
  }

  /** With no DUP line nothing is skipped. */
  lemma {:induction false} SkipMidsEmpty(lines: seq<string>)
    requires forall i :: 0 <= i < |lines| ==> !IsDupLine(lines[i])
    ensures SkipMids(lines) == {}
  {
    if SkipMids(lines) != {} {
      var m :| m in SkipMids(lines);
      SkipMidsMembers(lines, m);
    }
  }

  /** Stripping leaves the front of a line alone when the line opens with a prefix
      whose first and last characters are not whitespace. */
  lemma {:induction false} StripKeepsPrefix(line: string, p: string)
    requires StartsWith(line, p) && p != []
    requires !IsSpace(p[0]) && !IsSpace(p[|p| - 1])
    ensures StartsWith(Strip(line), p)
  {
    assert line[0] == p[0] && line[|p| - 1] == p[|p| - 1];
    assert LStrip(line) == line;
    var r := RStrip(line);
    RStripSpec(line);
    assert |p| <= |r|;
    assert r[..|p|] == line[..|p|];
  }

  /** Text that opens with a colon-free `head` and a colon splits there first. */
  lemma {:induction false} SplitAtFirstColon(r: string, head: string)
    requires StartsWith(r, head + ":") && ':' !in head
    ensures |SplitOn(r, ':')| >= 2
    ensures SplitOn(r, ':')[1] == SplitOn(r[|head| + 1..], ':')[0]
  {
    assert r[|head|] == (head + ":")[|head|] == ':';
    assert forall i :: 0 <= i < |head| ==> r[i] == (head + ":")[i] == head[i];
    assert IndexOf(r, ':') == |head|;
  }

  /** An `a=mid:` line, stripped, splits on `:` into at least two parts. */
  lemma {:induction false} MidLineSplits(line: string)
    requires IsMidLine(line)
    ensures StartsWith(Strip(line), "a=mid:")
    ensures |SplitOn(Strip(line), ':')| >= 2
    ensures SplitOn(Strip(line), ':')[1] == SplitOn(Strip(line)[6..], ':')[0]
  {
    var r := Strip(line);
    assert StartsWith(r, "a=mid" + ":") by {
      assert "a=mid" + ":" == "a=mid:";
      StripKeepsPrefix(line, "a=mid:");
    }
    assert ':' !in "a=mid";
    SplitAtFirstColon(r, "a=mid");
  }

  /** `line.strip().split(":")[1]` on an `a=mid:` line. */
  function MidOf(line: string): string
    requires IsMidLine(line)
  {
    MidLineSplits(line);
    SplitOn(Strip(line), ':')[1]
  }

  /** The first part of `x + rest` split on colons is `x` when `x` has no colon and
      `rest` is empty or opens with one. */
  lemma {:induction false} SplitOnFirst(x: string, rest: string)
    requires ':' !in x
    requires rest == [] || rest[0] == ':'
    ensures SplitOn(x + rest, ':')[0] == x
  {
    var t := x + rest;
    assert forall i :: 0 <= i < |x| ==> t[i] == x[i];
    if |x| < |t| {
      assert t[|x|] == rest[0];
    }
    assert IndexOf(t, ':') == |x|;
    assert t[..|x|] == x;
  }

  /** The mid is the text between the first and the second colon. */
  lemma {:induction false} MidOfPlain(x: string, rest: string)
    requires ':' !in x
    requires rest == [] || rest[0] == ':'
    requires x + rest != [] && !IsSpace((x + rest)[|x + rest| - 1])
    ensures IsMidLine("a=mid:" + x + rest)
    ensures MidOf("a=mid:" + x + rest) == x
  {
    var line := "a=mid:" + x + rest;
    assert IsMidLine(line) && line[6..] == x + rest by {
      assert line[..6] == "a=mid:";
    }
    assert Strip(line) == line by {
      assert line[0] == 'a';
      assert line[|line| - 1] == (x + rest)[|x + rest| - 1];
      StripNoSpace(line);
    }
    MidLineSplits(line);
    SplitOnFirst(x, rest);
  }

  /** The last `a=mid:` value of a section, None when it has none. */
  function LastMid(section: seq<string>): Option<string>
    decreases |section|
  {
    if section == [] then None
    else
      var last := section[|section| - 1];
      if IsMidLine(last) then Some(MidOf(last)) else LastMid(section[..|section| - 1])
  }

  /** Appending a line updates the last mid exactly when the line is an `a=mid:` line. */
  lemma {:induction false} LastMidStep(section: seq<string>, line: string)
    ensures LastMid(section + [line]) == if IsMidLine(line) then Some(MidOf(line)) else LastMid(section)
  {
    assert (section + [line])[..|section|] == section;
  }

  lemma {:induction false} LastMidNone(section: seq<string>)
    ensures LastMid(section).None? <==> forall i :: 0 <= i < |section| ==> !IsMidLine(section[i])
    decreases |section|
  {
    if section != [] {
      var n := |section| - 1;
      LastMidNone(section[..n]);
      assert forall i :: 0 <= i < n ==> section[..n][i] == section[i];
    }
  }

  /** A section survives unless its mid is in the skip set; one without a mid always does. */
  predicate Keep(section: seq<string>, skip: set<string>) {
    LastMid(section).None? || LastMid(section).value !in skip
  }

  /** Position of the first media line of `lines`, or `|lines|`. */
  function FirstMedia(lines: seq<string>): (k: nat)
    ensures k <= |lines|
    ensures forall i :: 0 <= i < k ==> !IsMediaLine(lines[i])
    ensures k < |lines| ==> IsMediaLine(lines[k])
    decreases |lines|
  {
    if lines == [] || IsMediaLine(lines[0]) then 0 else 1 + FirstMedia(lines[1..])
  }

  /** Where the section opening `lines` ends: at the next `m=` line after the first line. */
  function SectionEnd(lines: seq<string>): (k: nat)
    requires lines != []
    ensures 1 <= k <= |lines|
    ensures forall i :: 1 <= i < k ==> !IsMediaLine(lines[i])
    ensures k < |lines| ==> IsMediaLine(lines[k])
  {
    var f := FirstMedia(lines[1..]);
    assert forall i :: 1 <= i < 1 + f ==> lines[i] == lines[1..][i - 1];
    1 + f
  }

  /** The sections of a description: each `m=` line after the first line opens a new one;
      what comes before the first `m=` line is a section of its own. */
  function Sections(lines: seq<string>): (ss: seq<seq<string>>)
    ensures forall k :: 0 <= k < |ss| ==> ss[k] != []
    decreases |lines|
  {
    if lines == [] then []
    else
      var k := SectionEnd(lines);
      [lines[..k]] + Sections(lines[k..])
  }

  function Flatten(ss: seq<seq<string>>): seq<string>
    decreases |ss|
  {
    if ss == [] then [] else ss[0] + Flatten(ss[1..])
  }

  lemma {:induction false} FlattenAppend(a: seq<seq<string>>, b: seq<seq<string>>)
    ensures Flatten(a + b) == Flatten(a) + Flatten(b)
    decreases |a|
  {
    if a == [] {
      assert a + b == b;
    } else {
      assert (a + b)[1..] == a[1..] + b;
      FlattenAppend(a[1..], b);
    }
  }

  /** Concatenated, the sections give the input back. */
  lemma {:induction false} SectionsFlatten(lines: seq<string>)
    ensures Flatten(Sections(lines)) == lines
    decreases |lines|
  {
    if lines != [] {
      var e := SectionEnd(lines);
      var rest := Sections(lines[e..]);
      assert Sections(lines) == [lines[..e]] + rest;
      FlattenCons(lines[..e], rest);
      SectionsFlatten(lines[e..]);
      assert lines[..e] + lines[e..] == lines;
    }
  }

  lemma {:induction false} FlattenCons(x: seq<string>, rest: seq<seq<string>>)
    ensures Flatten([x] + rest) == x + Flatten(rest)
  {
    assert ([x] + rest)[0] == x && ([x] + rest)[1..] == rest;
  }

  /** Every section but the first opens with an `m=` line. */
  lemma {:induction false} SectionsOpenWithMedia(lines: seq<string>)
    ensures forall k :: 0 < k < |Sections(lines)| ==> IsMediaLine(Sections(lines)[k][0])
    decreases |lines|
  {
    if lines != [] {
      var e := SectionEnd(lines);
      var ss := Sections(lines);
      var rest := Sections(lines[e..]);
      SectionsOpenWithMedia(lines[e..]);
      assert ss[1..] == rest;
      forall k | 0 < k < |ss|
        ensures IsMediaLine(ss[k][0])
      {
        assert ss[k] == rest[k - 1];
        if k == 1 {
          assert lines[e..] != [];
          assert rest[0] == lines[e..][..SectionEnd(lines[e..])];
          assert rest[0][0] == lines[e];
        }
      }
    }
  }

  /** No section holds an `m=` line after its first line. */
  lemma {:induction false} SectionsNoInnerMedia(lines: seq<string>)
    ensures forall k, i :: 0 <= k < |Sections(lines)| && 1 <= i < |Sections(lines)[k]| ==> !IsMediaLine(Sections(lines)[k][i])
    decreases |lines|
  {
    if lines != [] {
      var e := SectionEnd(lines);
      var ss := Sections(lines);
      var rest := Sections(lines[e..]);
      SectionsNoInnerMedia(lines[e..]);
      assert ss[1..] == rest;
      forall k, i | 0 <= k < |ss| && 1 <= i < |ss[k]|
        ensures !IsMediaLine(ss[k][i])
      {
        if k == 0 {
          assert ss[0][i] == lines[i];
        } else {
          assert ss[k] == rest[k - 1];
        }
      }
    }
  }

  /** A run of lines with no later `m=` line is one section. */
  lemma {:induction false} SectionsOfBlock(block: seq<string>)
    requires block != []
    requires forall i :: 1 <= i < |block| ==> !IsMediaLine(block[i])
    ensures Sections(block) == [block]
  {
    assert SectionEnd(block) == |block|;
    assert block[..|block|] == block;
    assert Sections(block) == [block[..|block|]] + Sections(block[|block|..]);
  }

  /** Sections split at a media line: the sections of the parts are those of the whole. */
  lemma {:induction false} SectionsSplit(a: seq<string>, b: seq<string>)
    requires a == [] || b == [] || IsMediaLine(b[0])
    ensures Sections(a + b) == Sections(a) + Sections(b)
    decreases |a|
  {
    if a == [] {
      SectionsOfEmptyThen(a, b);
    } else {
      SectionsSplit(a[SectionEnd(a)..], b);
      SectionsSplitStep(a, b);
    }
  }

  lemma {:induction false} SectionsOfEmptyThen(a: seq<string>, b: seq<string>)
    requires a == []
    ensures Sections(a + b) == Sections(a) + Sections(b)
  {
    assert a + b == b;
    assert Sections(a) == [];
  }

  /** The step of the split: with the rest of `a` split, the whole is. */
  lemma {:induction false} SectionsSplitStep(a: seq<string>, b: seq<string>)
    requires a != [] && (b == [] || IsMediaLine(b[0]))
    requires Sections(a[SectionEnd(a)..] + b) == Sections(a[SectionEnd(a)..]) + Sections(b)
    ensures Sections(a + b) == Sections(a) + Sections(b)
  {
    var first := a[..SectionEnd(a)];
    var tail := a[SectionEnd(a)..];
    SectionsAppendStep(a, b);
    SectionsCons(a);
    ConsThenAppend(Sections(a + b), Sections(a), Sections(tail + b), Sections(tail), Sections(b), first);
  }

  lemma {:induction false} ConsThenAppend(whole: seq<seq<string>>, left: seq<seq<string>>, restRight: seq<seq<string>>,
                                          rest: seq<seq<string>>, right: seq<seq<string>>, first: seq<string>)
    requires whole == [first] + restRight && left == [first] + rest && restRight == rest + right
    ensures whole == left + right
  {
    assert [first] + (rest + right) == ([first] + rest) + right;
  }

  /** The first section of `a + b` is that of `a`; the rest follows from `a`'s rest and `b`. */
  lemma {:induction false} SectionsAppendStep(a: seq<string>, b: seq<string>)
    requires a != [] && (b == [] || IsMediaLine(b[0]))
    ensures Sections(a + b) == [a[..SectionEnd(a)]] + Sections(a[SectionEnd(a)..] + b)
  {
    SectionEndSplit(a, b);
    SplitAtCut(a, b, SectionEnd(a));
    SectionsCons(a + b);
  }

  lemma {:induction false} SplitAtCut(a: seq<string>, b: seq<string>, k: nat)
    requires k <= |a|
    ensures (a + b)[..k] == a[..k] && (a + b)[k..] == a[k..] + b
  {
  }

  /** The first section, then the sections of the rest. */
  lemma {:induction false} SectionsCons(lines: seq<string>)
    requires lines != []
    ensures Sections(lines) == [lines[..SectionEnd(lines)]] + Sections(lines[SectionEnd(lines)..])
  {
  }

  /** The first section of `a + b` is that of `a` when `b` opens with an `m=` line. */
  lemma {:induction false} SectionEndSplit(a: seq<string>, b: seq<string>)
    requires a != [] && (b == [] || IsMediaLine(b[0]))
    ensures SectionEnd(a + b) == SectionEnd(a)
  {
    var ka := SectionEnd(a);
    var k := SectionEnd(a + b);
    assert forall i :: 0 <= i < |a| ==> (a + b)[i] == a[i];
    if ka < |a| {
      assert IsMediaLine((a + b)[ka]);
    } else if b != [] {
      assert (a + b)[|a|] == b[0];
    }
  }

  /** The sections that survive, in order. */
  function KeptSections(ss: seq<seq<string>>, skip: set<string>): seq<seq<string>>
    decreases |ss|
  {
    if ss == [] then []
    else (if Keep(ss[0], skip) then [ss[0]] else []) + KeptSections(ss[1..], skip)
  }

  lemma {:induction false} KeptSectionsAppend(ss: seq<seq<string>>, s: seq<string>, skip: set<string>)
    ensures KeptSections(ss + [s], skip) == KeptSections(ss, skip) + (if Keep(s, skip) then [s] else [])
    decreases |ss|
  {
    if ss == [] {
      assert KeptSections([s], skip) == (if Keep(s, skip) then [s] else []) + KeptSections([], skip);
    } else {
      assert (ss + [s])[1..] == ss[1..] + [s];
      KeptSectionsAppend(ss[1..], s, skip);
    }
  }

  /** `xs` is `ys` with some elements left out and the rest in their order. */
  predicate IsSubseqOf(xs: seq<seq<string>>, ys: seq<seq<string>>)
    decreases |ys|
  {
    if xs == [] then true
    else if ys == [] then false
    else (xs[0] == ys[0] && IsSubseqOf(xs[1..], ys[1..])) || IsSubseqOf(xs, ys[1..])
  }

  /** The output is made of whole input sections in their order, and a section is
      among them exactly when it is kept. */
  lemma {:induction false} KeptSectionsSelect(ss: seq<seq<string>>, skip: set<string>)
    ensures IsSubseqOf(KeptSections(ss, skip), ss)
    ensures forall s :: s in KeptSections(ss, skip) <==> s in ss && Keep(s, skip)
    decreases |ss|
  {
    if ss != [] {
      KeptSectionsSelect(ss[1..], skip);
      var rest := KeptSections(ss[1..], skip);
      if Keep(ss[0], skip) {
        assert KeptSections(ss, skip) == [ss[0]] + rest;
        assert ([ss[0]] + rest)[1..] == rest;
      } else {
        assert KeptSections(ss, skip) == rest;
        assert rest == [] || IsSubseqOf(rest, ss[1..]);
      }
      forall s
        ensures s in ss <==> s == ss[0] || s in ss[1..]
      {
        if s in ss {
          var i :| 0 <= i < |ss| && ss[i] == s;
          if i > 0 {
            assert ss[1..][i - 1] == s;
          }
        }
      }
    }
  }

  /** The output lines before joining: the surviving sections, concatenated. */
  function KeptLines(lines: seq<string>): seq<string> {
    Flatten(KeptSections(Sections(lines), SkipMids(lines)))
  }

  /** Without any DUP line the filter keeps every line. */
  lemma {:induction false} NoDupKeepsAll(lines: seq<string>)
    requires forall i :: 0 <= i < |lines| ==> !IsDupLine(lines[i])
    ensures KeptLines(lines) == lines
  {
    SkipMidsEmpty(lines);
    AllKept(Sections(lines), SkipMids(lines));
    SectionsFlatten(lines);
  }

  lemma {:induction false} AllKept(ss: seq<seq<string>>, skip: set<string>)
    requires skip == {}
    ensures KeptSections(ss, skip) == ss
    decreases |ss|
  {
    if ss != [] {
      AllKept(ss[1..], skip);
    }
  }

  /** The lines before the first media section, when they carry no mid, always survive;
      in particular the DUP line itself is never removed from such a preamble. */
  lemma {:induction false} PreambleKept(lines: seq<string>)
    requires lines != []
    requires forall i :: 0 <= i < SectionEnd(lines) ==> !IsMidLine(lines[i])
    ensures lines[..SectionEnd(lines)] <= KeptLines(lines)
  {
    var e := SectionEnd(lines);
    var ss := Sections(lines);
    assert ss[0] == lines[..e];
    LastMidNone(lines[..e]);
    assert KeptSections(ss, SkipMids(lines)) == [ss[0]] + KeptSections(ss[1..], SkipMids(lines));
  }

  /** `remove_secondary_streams`: split the description into lines, filter them,
      and join the kept lines with CRLF, ending with one. */
  method RemoveSecondaryStreams(sdp: string) returns (out: string)
    ensures out == Join(KeptLines(SplitLines(sdp)), "\r\n") + "\r\n"
  {
    var lines := SplitLines(sdp);
    var skip := CollectSkipMids(lines);
    var newLines := EmitKeptSections(lines, skip);
    out := Join(newLines, "\r\n") + "\r\n";
  }

  /** The first pass: every DUP line adds the mids after its first to the skip set. */
  method CollectSkipMids(lines: seq<string>) returns (skip: set<string>)
    ensures skip == SkipMids(lines)
  {
    skip := {};
    var i := 0;
    while i < |lines|
      invariant 0 <= i <= |lines|
      invariant skip == SkipMids(lines[..i])
    {
      var line := lines[i];
      SkipMidsStep(lines, i);
      if IsDupLine(line) {
        skip := skip + DupSkips(line);
      }
      i := i + 1;
    }
    assert lines[..|lines|] == lines;
  }

  /** The second pass: buffer each section and emit it when its last mid is not skipped. */
  method EmitKeptSections(lines: seq<string>, skip: set<string>) returns (newLines: seq<string>)
    ensures newLines == Flatten(KeptSections(Sections(lines), skip))
  {
    var currentMid: Option<string> := None;
    var buffer: seq<string> := [];
    newLines := [];
    ghost var start := 0;
    var i := 0;
    while i < |lines|
      invariant Emitting(lines, skip, start, i, buffer, currentMid, newLines)
    {
      start, buffer, currentMid, newLines := EmitLine(lines, skip, start, i, buffer, currentMid, newLines);
      i := i + 1;
    }
    FinishStep(lines, skip, start, buffer, currentMid, newLines);
    if buffer != [] && (currentMid.None? || currentMid.value !in skip) {
      newLines := newLines + buffer;
    }
  }

  /** One line of the second pass: an `m=` line first emits the open section if its
      mid is not skipped and starts a new one; every line then joins the open section,
      and a mid line sets its mid. */
  method EmitLine(lines: seq<string>, skip: set<string>, ghost start: int, i: nat,
                  buffer: seq<string>, currentMid: Option<string>, newLines: seq<string>)
    returns (ghost start': int, buffer': seq<string>, currentMid': Option<string>, newLines': seq<string>)
    requires i < |lines| && Emitting(lines, skip, start, i, buffer, currentMid, newLines)
    ensures Emitting(lines, skip, start', i + 1, buffer', currentMid', newLines')
  {
    start', buffer', currentMid', newLines' := start, buffer, currentMid, newLines;
    var line := lines[i];
    if IsMediaLine(line) {
      if buffer != [] {
        FlushStep(lines, skip, start, i, buffer, currentMid, newLines);
        if currentMid.None? || currentMid.value !in skip {
          newLines' := newLines + buffer;
        }
        buffer' := [];
        currentMid' := None;
        start' := i;
      }
    }
    AppendStep(lines, skip, start', i, buffer', currentMid', newLines');
    if IsMidLine(line) {
      currentMid' := Some(MidOf(line));
    }
    buffer' := buffer' + [line];
  }

  /** The state of the second pass after `i` lines: `buffer` holds the open section,
      which started at `start`, `currentMid` is its mid, and `newLines` holds the kept
      sections before it. */
  ghost predicate Emitting(lines: seq<string>, skip: set<string>, start: int, i: int,
                           buffer: seq<string>, currentMid: Option<string>, newLines: seq<string>) {
    && 0 <= start <= i <= |lines|
    && buffer == lines[start..i]
    && (start > 0 ==> start < |lines| && IsMediaLine(lines[start]))
    && (forall k :: start < k < i ==> !IsMediaLine(lines[k]))
    && currentMid == LastMid(buffer)
    && newLines == Flatten(KeptSections(Sections(lines[..start]), skip))
  }

  /** An `m=` line closes the open section: it is emitted if kept, and a new one starts. */
  lemma {:induction false} FlushStep(lines: seq<string>, skip: set<string>, start: int, i: int,
                  buffer: seq<string>, currentMid: Option<string>, newLines: seq<string>)
    requires Emitting(lines, skip, start, i, buffer, currentMid, newLines)
    requires i < |lines| && IsMediaLine(lines[i]) && buffer != []
    ensures Emitting(lines, skip, i, i, [], None,
                     newLines + (if currentMid.None? || currentMid.value !in skip then buffer else []))
  {
    FlushSection(lines, start, i, skip);
  }

  /** Reading a line that does not open a section (or opens the first) extends the open one. */
  lemma {:induction false} AppendStep(lines: seq<string>, skip: set<string>, start: int, i: int,
                   buffer: seq<string>, currentMid: Option<string>, newLines: seq<string>)
    requires Emitting(lines, skip, start, i, buffer, currentMid, newLines)
    requires i < |lines| && (IsMediaLine(lines[i]) ==> buffer == [])
    ensures Emitting(lines, skip, start, i + 1, buffer + [lines[i]],
                     if IsMidLine(lines[i]) then Some(MidOf(lines[i])) else currentMid, newLines)
  {
    SliceExtend(lines, start, i);
    LastMidStep(buffer, lines[i]);
  }

  /** At the end of the input the open section is emitted if kept. */
  lemma {:induction false} FinishStep(lines: seq<string>, skip: set<string>, start: int,
                   buffer: seq<string>, currentMid: Option<string>, newLines: seq<string>)
    requires Emitting(lines, skip, start, |lines|, buffer, currentMid, newLines)
    ensures newLines + (if buffer != [] && (currentMid.None? || currentMid.value !in skip) then buffer else [])
            == Flatten(KeptSections(Sections(lines), skip))
  {
    if buffer != [] {
      FlushSection(lines, start, |lines|, skip);
    } else {
      assert lines[..start] == lines;
    }
    assert lines[..|lines|] == lines;
  }

  lemma {:induction false} SliceExtend(lines: seq<string>, start: nat, i: nat)
    requires start <= i < |lines|
    ensures lines[start..i + 1] == lines[start..i] + [lines[i]]
  {
  }

  /** Emitting the buffered section `lines[start..end]` extends the kept lines of the prefix. */
  lemma {:induction false} FlushSection(lines: seq<string>, start: nat, end: nat, skip: set<string>)
    requires start < end <= |lines|
    requires start > 0 ==> IsMediaLine(lines[start])
    requires forall k :: start < k < end ==> !IsMediaLine(lines[k])
    ensures Flatten(KeptSections(Sections(lines[..end]), skip)) ==
      Flatten(KeptSections(Sections(lines[..start]), skip)) + (if Keep(lines[start..end], skip) then lines[start..end] else [])
  {
    var prefix := lines[..start];
    var block := lines[start..end];
    var opt: seq<seq<string>> := if Keep(block, skip) then [block] else [];
    assert lines[..end] == prefix + block;
    SectionsSplit(prefix, block);
    SectionsOfBlock(block);
    KeptSectionsAppend(Sections(prefix), block, skip);
    FlattenAppend(KeptSections(Sections(prefix), skip), opt);
    FlattenOptional(block, Keep(block, skip));
  }

  lemma {:induction false} FlattenOptional(block: seq<string>, keep: bool)
    ensures Flatten(if keep then [block] else []) == if keep then block else []
  {
    if keep {
      assert Flatten([block]) == block + Flatten([]);
    }
  }
}
