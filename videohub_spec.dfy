/** The pure side of the Videohub emulator (protocols/bmdvideohub.py): the label
    dictionaries and index maps built from the registry, the text blocks sent to
    panels, the framing of a panel's input into blocks, what a routing block does
    to the routing table, and the reconciliation of that table with the devices'
    subscriptions. */
module VideohubSpec {
  import opened Wrappers
  import opened Text
  import opened Logical
  import PatchBus

  // ---------------------------------------------------------------------------
  // Labels and index maps
  // ---------------------------------------------------------------------------

  /** Entry k of a table appears in the label dictionary under `id`: it carries that ID and a non-empty name. */
  predicate Labelled(t: Table, k: int, id: int) {
    0 <= k < |t| && t[k].group.id == Some(id) && t[k].name != ""
  }

  /** The ID-to-name dictionary of one table, built in table order, so a later
      entry with the same ID replaces an earlier one. */
  function Labels(t: Table): map<int, string>
    decreases |t|
  {
    if t == [] then map[]
    else
      var e := t[|t| - 1];
      var m := Labels(t[..|t| - 1]);
      if e.group.id.Some? && e.name != "" then m[e.group.id.value := e.name] else m
  }

  /** An ID has a label exactly when some named entry carries it, and the label is
      the name of the last such entry. */
  lemma {:induction false} LabelsOf(t: Table, id: int)
    ensures id in Labels(t) <==> exists k :: Labelled(t, k, id)
    ensures id in Labels(t) ==>
      exists k :: Labelled(t, k, id) && Labels(t)[id] == t[k].name && forall j :: k < j < |t| ==> !Labelled(t, j, id)
    decreases |t|
  {
    if t != [] {
      var n := |t| - 1;
      var p := t[..n];
      LabelsOf(p, id);
      assert forall k :: 0 <= k < n ==> (Labelled(p, k, id) <==> Labelled(t, k, id));
      if !Labelled(t, n, id) && id in Labels(t) {
        var k :| Labelled(p, k, id) && Labels(p)[id] == p[k].name && forall j :: k < j < |p| ==> !Labelled(p, j, id);
        assert Labelled(t, k, id) && Labels(t)[id] == t[k].name;
      }
    }
  }

  /** Strictly ascending. */
  predicate Increasing(s: seq<int>) {
    forall i, j :: 0 <= i < j < |s| ==> s[i] < s[j]
  }

  lemma {:induction false} MinExists(s: set<int>)
    requires s != {}
    ensures exists m :: m in s && forall y :: y in s ==> m <= y
    decreases s
  {
    var x := Pick(s);
    var rest := s - {x};
    if rest == {} {
      forall y | y in s
        ensures x <= y
      {
        assert y !in rest;
      }
    } else {
      MinExists(rest);
      var m :| m in rest && forall y :: y in rest ==> m <= y;
      var least := if x < m then x else m;
      forall y | y in s
        ensures least <= y
      {
        if y != x {
          assert y in rest;
        }
      }
    }
  }

  /** Some element of a non-empty set. */
  lemma {:induction false} Pick(s: set<int>) returns (x: int)
    requires s != {}
    ensures x in s
  {
    if forall y :: y !in s {
      assert false;
    }
    x :| x in s;
  }

  /** The least element of a non-empty finite set. */
  function MinOf(s: set<int>): (m: int)
    requires s != {}
    ensures m in s && forall y :: y in s ==> m <= y
  {
    MinExists(s);
    var m :| m in s && forall y :: y in s ==> m <= y;
    m
  }

  /** `sorted(keys)` for a finite set of integers: the least element first, then the rest sorted. */
  function SortedSet(s: set<int>): seq<int>
    decreases s
  {
    if s == {} then [] else [MinOf(s)] + SortedSet(s - {MinOf(s)})
  }

  /** The sorted list holds exactly the elements of the set. */
  lemma {:induction false} SortedSetMembers(s: set<int>)
    ensures forall x :: x in SortedSet(s) <==> x in s
    decreases s
  {
    if s != {} {
      var m := MinOf(s);
      SortedSetMembers(s - {m});
      assert SortedSet(s) == [m] + SortedSet(s - {m});
    }
  }

  /** The sorted list holds each element once. */
  lemma {:induction false} SortedSetLength(s: set<int>)
    ensures |SortedSet(s)| == |s|
    decreases s
  {
    if s != {} {
      var m := MinOf(s);
      SortedSetLength(s - {m});
      assert |s - {m}| == |s| - 1;
    }
  }

  /** The sorted list is strictly ascending. */
  lemma {:induction false} SortedSetIncreasing(s: set<int>)
    ensures Increasing(SortedSet(s))
    decreases s
  {
    if s != {} {
      var m := MinOf(s);
      SortedSetIncreasing(s - {m});
      SortedSetMembers(s - {m});
      var rest := SortedSet(s - {m});
      var whole := [m] + rest;
      assert SortedSet(s) == whole;
      forall i, j | 0 <= i < j < |whole|
        ensures whole[i] < whole[j]
      {
        assert whole[j] == rest[j - 1];
        if i == 0 {
          assert rest[j - 1] in rest;
        } else {
          assert whole[i] == rest[i - 1];
        }
      }
    }
  }

  /** The sorted list holds each element of the set once, ascending. */
  lemma {:induction false} SortedSetSpec(s: set<int>)
    ensures Increasing(SortedSet(s))
    ensures forall x :: x in SortedSet(s) <==> x in s
    ensures |SortedSet(s)| == |s|
  {
    SortedSetIncreasing(s);
    SortedSetMembers(s);
    SortedSetLength(s);
  }

  /** `{x: i for i, x in enumerate(order)}` */
  function Positions(order: seq<int>): map<int, nat>
    decreases |order|
  {
    if order == [] then map[]
    else Positions(order[..|order| - 1])[order[|order| - 1] := |order| - 1]
  }

  /** The position map is the inverse of the order it enumerates: it knows exactly
      the listed IDs, maps each to a position holding it, and, for an ascending
      order, to its own position. */
  lemma {:induction false} PositionsInverse(order: seq<int>)
    ensures forall x :: x in Positions(order) <==> x in order
    ensures forall x :: x in Positions(order) ==> Positions(order)[x] < |order| && order[Positions(order)[x]] == x
    ensures Increasing(order) ==> forall i :: 0 <= i < |order| ==> Positions(order)[order[i]] == i
    decreases |order|
  {
    if order != [] {
      var n := |order| - 1;
      var p := order[..n];
      PositionsInverse(p);
      assert forall x :: x in order <==> x in p || x == order[n];
      if Increasing(order) {
        assert Increasing(p);
        forall i | 0 <= i < |order|
          ensures Positions(order)[order[i]] == i
        {
          if i < n {
            assert order[i] != order[n];
            assert p[i] == order[i];
          }
        }
      }
    }
  }

  /** The index-map fields are derived from the label dictionary: the sorted IDs and their positions. */
  predicate IndexedBy(labels: map<int, string>, order: seq<int>, positions: map<int, nat>) {
    order == SortedSet(labels.Keys) && positions == Positions(order)
  }

  /** What `IndexedBy` gives a reader of the index maps: the order lists every
      labelled ID once, ascending, and the positions are its exact inverse. */
  lemma {:induction false} IndexedByInverse(labels: map<int, string>, order: seq<int>, positions: map<int, nat>)
    requires IndexedBy(labels, order, positions)
    ensures Increasing(order) && |order| == |labels|
    ensures forall x :: x in order <==> x in labels
    ensures forall x :: x in positions <==> x in labels
    ensures forall x :: x in positions ==> positions[x] < |order| && order[positions[x]] == x
    ensures forall i :: 0 <= i < |order| ==> order[i] in positions && positions[order[i]] == i
  {
    SortedSetSpec(labels.Keys);
    PositionsInverse(order);
  }

  // ---------------------------------------------------------------------------
  // Rendered blocks
  // ---------------------------------------------------------------------------

  const Preamble := "PROTOCOL PREAMBLE:\nVersion: 2.3"
  const RoutingHeader := "VIDEO OUTPUT ROUTING:"

  /** The lines of the `VIDEOHUB DEVICE:` block for the given numbers of inputs and outputs. */
  function DeviceInfoLines(inputs: nat, outputs: nat): seq<string> {
    ["VIDEOHUB DEVICE:", "Device present: true", "Model name: NMOS Web Patcher",
     "Video inputs: " + NatToString(inputs), "Video processing units: 0",
     "Video outputs: " + NatToString(outputs), "Video monitoring outputs: 0", "Serial ports: 0"]
  }

  function DeviceInfoText(inputs: nat, outputs: nat): string {
    Join(DeviceInfoLines(inputs, outputs), "\n")
  }

  /** A panel reading the device block line by line finds the input count on its
      fourth line and the output count on its sixth. */
  lemma {:induction false} DeviceInfoReadBack(inputs: nat, outputs: nat)
    ensures var ls := SplitOn(DeviceInfoText(inputs, outputs), '\n');
      && |ls| == 8 && ls[0] == "VIDEOHUB DEVICE:"
      && ls[3] == "Video inputs: " + NatToString(inputs)
      && ls[5] == "Video outputs: " + NatToString(outputs)
  {
    var xs := DeviceInfoLines(inputs, outputs);
    DeviceInfoLinesFree(inputs, outputs);
    forall k, i | 0 <= k < |xs| && 0 <= i < |xs[k]|
      ensures xs[k][i] != '\n'
    {
      assert Free(xs[k], '\n');
    }
    SplitOnJoin(xs, '\n');
  }

  lemma {:induction false} DeviceInfoLinesFree(inputs: nat, outputs: nat)
    ensures forall k :: 0 <= k < |DeviceInfoLines(inputs, outputs)| ==> Free(DeviceInfoLines(inputs, outputs)[k], '\n')
  {
    CountLineFree("Video inputs: ", inputs);
    CountLineFree("Video outputs: ", outputs);
    HeadLinesFree();
    TailLinesFree();
  }

  lemma {:induction false} CountLineFree(title: string, n: nat)
    requires Free(title, '\n')
    ensures Free(title + NatToString(n), '\n')
  {
    NatToStringDigits(n);
    DigitsFree(NatToString(n));
    FreeAppend(title, NatToString(n), '\n');
  }

  lemma {:induction false} HeadLinesFree()
    ensures Free("VIDEOHUB DEVICE:", '\n') && Free("Device present: true", '\n')
    ensures Free("Model name: NMOS Web Patcher", '\n') && Free("Video inputs: ", '\n')
  {
  }

  lemma {:induction false} TailLinesFree()
    ensures Free("Video processing units: 0", '\n') && Free("Video outputs: ", '\n')
    ensures Free("Video monitoring outputs: 0", '\n') && Free("Serial ports: 0", '\n')
  {
  }

  /** No occurrence of `c`. */
  predicate Free(s: string, c: char) {
    forall i :: 0 <= i < |s| ==> s[i] != c
  }

  lemma {:induction false} FreeAppend(a: string, b: string, c: char)
    requires Free(a, c) && Free(b, c)
    ensures Free(a + b, c)
  {
  }

  lemma {:induction false} DigitsFree(s: string)
    requires AllDigits(s)
    ensures Free(s, '\n') && Free(s, ' ')
  {
  }

  /** One label line: the position, a space, the name. */
  function LabelLine(i: nat, name: string): string {
    NatToString(i) + " " + name
  }

  /** The body of `INPUT LABELS:` / `OUTPUT LABELS:`: one line per position of the order. */
  function LabelLines(order: seq<int>, labels: map<int, string>): (ls: seq<string>)
    requires forall i :: 0 <= i < |order| ==> order[i] in labels
    ensures |ls| == |order|
  {
    seq(|order|, i requires 0 <= i < |order| => LabelLine(i, labels[order[i]]))
  }

  function LabelsBlock(title: string, order: seq<int>, labels: map<int, string>): string
    requires forall i :: 0 <= i < |order| ==> order[i] in labels
  {
    title + "\n" + Join(LabelLines(order, labels), "\n")
  }

  /** A panel recovers the position and the name from a label line: the text
      before the first space is the position and the rest is the name. */
  lemma {:induction false} LabelLineRoundTrip(i: nat, name: string)
    ensures var l := LabelLine(i, name);
      var k := IndexOf(l, ' ');
      && k == |NatToString(i)| && ParseInt(l[..k]) == Some(i) && l[k + 1..] == name
  {
    var d := NatToString(i);
    NatToStringDigits(i);
    IndexOfBefore(d, ' ', name);
    var l := d + [' '] + name;
    assert LabelLine(i, name) == l;
    assert l[..|d|] == d;
    assert l[|d| + 1..] == name;
    ParseIntOfIntToString(i);
  }

  /** `routing.get(output_id)` */
  function RouteOf(routing: map<Option<int>, Option<int>>, out: int): Option<int> {
    if Some(out) in routing then routing[Some(out)] else None
  }

  /** Output position o gets a routing line: the source it is routed to has an input index. */
  predicate Shown(routing: map<Option<int>, Option<int>>, outOrder: seq<int>, inIndex: map<int, nat>, o: int) {
    0 <= o < |outOrder| && RouteOf(routing, outOrder[o]).Some? && RouteOf(routing, outOrder[o]).value in inIndex
  }

  /** The (output position, input position) pairs for the first n outputs. */
  function RoutePairsUpTo(outOrder: seq<int>, routing: map<Option<int>, Option<int>>, inIndex: map<int, nat>, n: nat): seq<(nat, nat)>
    requires n <= |outOrder|
    decreases n
  {
    if n == 0 then []
    else
      var ps := RoutePairsUpTo(outOrder, routing, inIndex, n - 1);
      var r := RouteOf(routing, outOrder[n - 1]);
      if r.Some? && r.value in inIndex then ps + [(n - 1, inIndex[r.value])] else ps
  }

  /** Each pair is an output among the first n that is shown, with its source's input position. */
  predicate PairsSound(ps: seq<(nat, nat)>, outOrder: seq<int>, routing: map<Option<int>, Option<int>>, inIndex: map<int, nat>, n: nat) {
    forall k :: 0 <= k < |ps| ==>
      ps[k].0 < n && Shown(routing, outOrder, inIndex, ps[k].0) && ps[k].1 == inIndex[RouteOf(routing, outOrder[ps[k].0]).value]
  }

  /** The pairs' output positions strictly ascend. */
  predicate OutputsAscend(ps: seq<(nat, nat)>) {
    forall k, l :: 0 <= k < l < |ps| ==> ps[k].0 < ps[l].0
  }

  /** Every shown output among the first n has a pair. */
  predicate PairsComplete(ps: seq<(nat, nat)>, outOrder: seq<int>, routing: map<Option<int>, Option<int>>, inIndex: map<int, nat>, n: nat) {
    forall o :: 0 <= o < n && Shown(routing, outOrder, inIndex, o) ==> exists k :: 0 <= k < |ps| && ps[k].0 == o
  }

  /** The pairs for the first n outputs are sound. */
  lemma {:induction false} RoutePairsSound(outOrder: seq<int>, routing: map<Option<int>, Option<int>>, inIndex: map<int, nat>, n: nat)
    requires n <= |outOrder|
    ensures PairsSound(RoutePairsUpTo(outOrder, routing, inIndex, n), outOrder, routing, inIndex, n)
    decreases n
  {
    if n > 0 {
      RoutePairsSound(outOrder, routing, inIndex, n - 1);
      var ps := RoutePairsUpTo(outOrder, routing, inIndex, n - 1);
      var r := RouteOf(routing, outOrder[n - 1]);
      if r.Some? && r.value in inIndex {
        var qs := ps + [(n - 1, inIndex[r.value])];
        assert RoutePairsUpTo(outOrder, routing, inIndex, n) == qs;
        forall k | 0 <= k < |qs|
          ensures qs[k].0 < n && Shown(routing, outOrder, inIndex, qs[k].0)
          ensures qs[k].1 == inIndex[RouteOf(routing, outOrder[qs[k].0]).value]
        {
          if k < |ps| {
            assert qs[k] == ps[k];
          }
        }
      } else {
        assert RoutePairsUpTo(outOrder, routing, inIndex, n) == ps;
      }
    }
  }

  /** The pairs for the first n outputs ascend. */
  lemma {:induction false} RoutePairsAscend(outOrder: seq<int>, routing: map<Option<int>, Option<int>>, inIndex: map<int, nat>, n: nat)
    requires n <= |outOrder|
    ensures OutputsAscend(RoutePairsUpTo(outOrder, routing, inIndex, n))
    decreases n
  {
    if n > 0 {
      RoutePairsAscend(outOrder, routing, inIndex, n - 1);
      RoutePairsSound(outOrder, routing, inIndex, n - 1);
      var ps := RoutePairsUpTo(outOrder, routing, inIndex, n - 1);
      var r := RouteOf(routing, outOrder[n - 1]);
      if r.Some? && r.value in inIndex {
        var qs := ps + [(n - 1, inIndex[r.value])];
        assert RoutePairsUpTo(outOrder, routing, inIndex, n) == qs;
        forall k, l | 0 <= k < l < |qs|
          ensures qs[k].0 < qs[l].0
        {
          assert qs[k] == ps[k];
          if l < |ps| {
            assert qs[l] == ps[l];
          }
        }
      }
    }
  }

  /** The pairs for the first n outputs cover every shown output. */
  lemma {:induction false} RoutePairsComplete(outOrder: seq<int>, routing: map<Option<int>, Option<int>>, inIndex: map<int, nat>, n: nat)
    requires n <= |outOrder|
    ensures PairsComplete(RoutePairsUpTo(outOrder, routing, inIndex, n), outOrder, routing, inIndex, n)
    decreases n
  {
    if n > 0 {
      RoutePairsComplete(outOrder, routing, inIndex, n - 1);
      var ps := RoutePairsUpTo(outOrder, routing, inIndex, n - 1);
      var r := RouteOf(routing, outOrder[n - 1]);
      if r.Some? && r.value in inIndex {
        var qs := ps + [(n - 1, inIndex[r.value])];
        assert RoutePairsUpTo(outOrder, routing, inIndex, n) == qs;
        forall o | 0 <= o < n && Shown(routing, outOrder, inIndex, o)
          ensures exists k :: 0 <= k < |qs| && qs[k].0 == o
        {
          if o < n - 1 {
            var k :| 0 <= k < |ps| && ps[k].0 == o;
            assert qs[k] == ps[k];
          } else {
            assert qs[|ps|].0 == o;
          }
        }
      } else {
        assert RoutePairsUpTo(outOrder, routing, inIndex, n) == ps;
        forall o | 0 <= o < n && Shown(routing, outOrder, inIndex, o)
          ensures exists k :: 0 <= k < |ps| && ps[k].0 == o
        {
          assert o != n - 1;
        }
      }
    }
  }

  /** `output_routing`'s pairs: every output position whose source has an input index, ascending. */
  function RoutePairs(outOrder: seq<int>, routing: map<Option<int>, Option<int>>, inIndex: map<int, nat>): seq<(nat, nat)> {
    RoutePairsUpTo(outOrder, routing, inIndex, |outOrder|)
  }

  /** One routing line, `"<output> <input>"`. */
  function PairLine(o: int, i: int): string {
    IntToString(o) + " " + IntToString(i)
  }

  function PairLines(ps: seq<(nat, nat)>): (ls: seq<string>)
    ensures |ls| == |ps|
  {
    seq(|ps|, k requires 0 <= k < |ps| => PairLine(ps[k].0, ps[k].1))
  }

  function RoutingBlock(ps: seq<(nat, nat)>): string {
    RoutingHeader + "\n" + Join(PairLines(ps), "\n")
  }

  // ---------------------------------------------------------------------------
  // Framing of a panel's input
  // ---------------------------------------------------------------------------

  /** The blocks handed to `process_block` so far, and the lines still buffered. */
  datatype Framing = Framing(blocks: seq<seq<string>>, buffer: seq<string>)

  /** One stripped line: a non-blank line is buffered, a blank one flushes the buffer as a block. */
  function Advance(f: Framing, line: string): Framing {
    if line == "" then Framing(f.blocks + [f.buffer], []) else Framing(f.blocks, f.buffer + [line])
  }

  /** The lines, stripped, taken in order from nothing buffered. */
  function Frame(lines: seq<string>): Framing
    decreases |lines|
  {
    if lines == [] then Framing([], [])
    else Advance(Frame(lines[..|lines| - 1]), Strip(lines[|lines| - 1]))
  }

  /** Reading one more line advances the framing by that line. */
  lemma {:induction false} FrameNext(lines: seq<string>, i: nat)
    requires i < |lines|
    ensures Frame(lines[..i + 1]) == Advance(Frame(lines[..i]), Strip(lines[i]))
  {
    assert lines[..i + 1][..i] == lines[..i];
  }

  /** The stripped non-blank lines, in order. */
  function NonBlank(lines: seq<string>): seq<string>
    decreases |lines|
  {
    if lines == [] then []
    else
      var line := Strip(lines[|lines| - 1]);
      NonBlank(lines[..|lines| - 1]) + (if line == "" then [] else [line])
  }

  function BlankCount(lines: seq<string>): nat
    decreases |lines|
  {
    if lines == [] then 0
    else BlankCount(lines[..|lines| - 1]) + (if Strip(lines[|lines| - 1]) == "" then 1 else 0)
  }

  function Flatten(blocks: seq<seq<string>>): seq<string>
    decreases |blocks|
  {
    if blocks == [] then [] else Flatten(blocks[..|blocks| - 1]) + blocks[|blocks| - 1]
  }

  /** Framing loses and invents no line: the blocks and the buffer hold exactly
      the non-blank lines in order, and there is one block per blank line. */
  lemma {:induction false} FrameConserves(lines: seq<string>)
    ensures Flatten(Frame(lines).blocks) + Frame(lines).buffer == NonBlank(lines)
    ensures |Frame(lines).blocks| == BlankCount(lines)
    decreases |lines|
  {
    if lines != [] {
      var p := lines[..|lines| - 1];
      var line := Strip(lines[|lines| - 1]);
      FrameConserves(p);
      var f := Frame(p);
      assert NonBlank(lines) == NonBlank(p) + (if line == "" then [] else [line]);
      assert BlankCount(lines) == BlankCount(p) + (if line == "" then 1 else 0);
      if line == "" {
        assert Frame(lines) == Framing(f.blocks + [f.buffer], []);
        var bs := f.blocks + [f.buffer];
        assert bs[..|bs| - 1] == f.blocks;
        assert Flatten(bs) == Flatten(f.blocks) + f.buffer;
      } else {
        assert Frame(lines) == Framing(f.blocks, f.buffer + [line]);
      }
    }
  }

  /** No block handed on and no buffered line is blank. */
  lemma {:induction false} FrameLinesNonBlank(lines: seq<string>)
    ensures forall b, l :: b in Frame(lines).blocks && l in b ==> l != ""
    ensures forall l :: l in Frame(lines).buffer ==> l != ""
    decreases |lines|
  {
    if lines != [] {
      FrameLinesNonBlank(lines[..|lines| - 1]);
    }
  }

  /** A blank line hands on exactly the buffered lines, and the buffer is empty exactly
      when no line has been read or the last line read was blank: the block a blank
      line flushes is empty, and gets no reply, exactly when that blank line is the
      first line or follows another blank line. */
  lemma {:induction false} FrameFlush(lines: seq<string>, blank: string)
    requires Strip(blank) == ""
    ensures Frame(lines + [blank]) == Framing(Frame(lines).blocks + [Frame(lines).buffer], [])
    ensures Frame(lines).buffer == [] <==> lines == [] || Strip(lines[|lines| - 1]) == ""
  {
    assert (lines + [blank])[..|lines|] == lines;
  }

  // ---------------------------------------------------------------------------
  // Routing blocks
  // ---------------------------------------------------------------------------

  /** `map(int, line.split())` unpacked into two: exactly two words, both integers. */
  function ParseRouteLine(line: string): Option<(int, int)> {
    var words := SplitWs(line);
    if |words| == 2 && ParseInt(words[0]).Some? && ParseInt(words[1]).Some? then
      Some((ParseInt(words[0]).value, ParseInt(words[1]).value))
    else None
  }

  /** A routing line as the emulator renders it parses back to its two indices. */
  lemma {:induction false} ParseRouteLineOfPair(o: int, i: int)
    ensures ParseRouteLine(PairLine(o, i)) == Some((o, i))
  {
    IntToStringIsWord(o);
    IntToStringIsWord(i);
    SplitTwoWords(IntToString(o), IntToString(i));
    ParseIntOfIntToString(o);
    ParseIntOfIntToString(i);
  }

  /** `s[k]` with Python's negative indexing; None where it raises IndexError. */
  function PyIndex(s: seq<int>, k: int): Option<int> {
    if 0 <= k < |s| then Some(s[k])
    else if -|s| <= k < 0 then Some(s[|s| + k])
    else None
  }

  /** What a routing line designates: the indices as parsed and the receiver and source IDs they select. */
  datatype Target = Target(outIdx: int, inIdx: int, receiver: int, sender: int)

  /** None for a line whose parsing or indexing raises. */
  function LineTarget(line: string, outOrder: seq<int>, inOrder: seq<int>): Option<Target> {
    match ParseRouteLine(line)
    case None => None
    case Some((o, i)) =>
      var r := PyIndex(outOrder, o);
      var s := PyIndex(inOrder, i);
      if r.Some? && s.Some? then Some(Target(o, i, r.value, s.value)) else None
  }

  /** What a routing block changes: the routing table, the `emit_patch` calls made
      (source ID, receiver ID) and the lines echoed back. */
  datatype BlockEffect = BlockEffect(routing: map<Option<int>, Option<int>>, calls: seq<(int, int)>, echo: seq<string>)

  /** One body line: a line that raises changes nothing; otherwise the entry is set
      and `emit_patch` called, and the line is echoed unless `emit_patch` raised. */
  function StepLine(eff: BlockEffect, reg: Logicals, outOrder: seq<int>, inOrder: seq<int>, line: string): BlockEffect {
    match LineTarget(line, outOrder, inOrder)
    case None => eff
    case Some(t) =>
      var echo := if PatchBus.EmitPatchRaises(reg, IntArg(t.sender), IntArg(t.receiver)) then eff.echo
                  else eff.echo + [PairLine(t.outIdx, t.inIdx)];
      BlockEffect(eff.routing[Some(t.receiver) := Some(t.sender)], eff.calls + [(t.sender, t.receiver)], echo)
  }

  /** The replies to a routing block: `ACK`, then the echo of the accepted lines if there are any. */
  function WriteReplies(echo: seq<string>): seq<string> {
    ["ACK"] + (if echo == [] then [] else [RoutingHeader + "\n" + Join(echo, "\n")])
  }

  /** The body lines of a routing block, taken in order. */
  function RunBlock(eff: BlockEffect, reg: Logicals, outOrder: seq<int>, inOrder: seq<int>, body: seq<string>): BlockEffect
    decreases |body|
  {
    if body == [] then eff
    else StepLine(RunBlock(eff, reg, outOrder, inOrder, body[..|body| - 1]), reg, outOrder, inOrder, body[|body| - 1])
  }

  /** A routing block's body applied to a routing table and a call log, nothing echoed yet. */
  function WriteEffect(routing: map<Option<int>, Option<int>>, calls: seq<(int, int)>, reg: Logicals,
                       outOrder: seq<int>, inOrder: seq<int>, body: seq<string>): BlockEffect
  {
    RunBlock(BlockEffect(routing, calls, []), reg, outOrder, inOrder, body)
  }

  /** Running two pieces of a body one after the other is running the whole body. */
  lemma {:induction false} RunBlockAppend(eff: BlockEffect, reg: Logicals, outOrder: seq<int>, inOrder: seq<int>, a: seq<string>, b: seq<string>)
    ensures RunBlock(eff, reg, outOrder, inOrder, a + b) == RunBlock(RunBlock(eff, reg, outOrder, inOrder, a), reg, outOrder, inOrder, b)
    decreases |b|
  {
    if b == [] {
      assert a + b == a;
    } else {
      var n := |b| - 1;
      assert (a + b)[..|a + b| - 1] == a + b[..n];
      assert (a + b)[|a + b| - 1] == b[n];
      RunBlockAppend(eff, reg, outOrder, inOrder, a, b[..n]);
    }
  }

  /** A malformed or out-of-range line is skipped without affecting its siblings:
      the block has the effect it would have without that line. */
  lemma {:induction false} MalformedLineSkipped(eff: BlockEffect, reg: Logicals, outOrder: seq<int>, inOrder: seq<int>, a: seq<string>, bad: string, b: seq<string>)
    requires LineTarget(bad, outOrder, inOrder).None?
    ensures RunBlock(eff, reg, outOrder, inOrder, a + [bad] + b) == RunBlock(eff, reg, outOrder, inOrder, a + b)
  {
    RunBlockAppend(eff, reg, outOrder, inOrder, a + [bad], b);
    RunBlockAppend(eff, reg, outOrder, inOrder, a, [bad]);
    RunBlockAppend(eff, reg, outOrder, inOrder, a, b);
    var mid := RunBlock(eff, reg, outOrder, inOrder, a);
    assert [bad][..0] == [];
    assert RunBlock(mid, reg, outOrder, inOrder, [bad]) == mid;
  }

  /** The entry an index selects, counting from the end for a negative index. */
  function Select(s: seq<int>, k: int): int
    requires -|s| <= k < |s|
  {
    if k < 0 then s[|s| + k] else s[k]
  }

  /** A one-line block `"o i"` with both indices in range (negative ones counting
      from the end) routes the selected receiver to the selected source, makes one
      `emit_patch` call for that pair, and is echoed exactly when the call does not raise. */
  lemma {:induction false} WriteLine(eff: BlockEffect, reg: Logicals, outOrder: seq<int>, inOrder: seq<int>, o: int, i: int)
    requires -|outOrder| <= o < |outOrder| && -|inOrder| <= i < |inOrder|
    ensures var r := RunBlock(eff, reg, outOrder, inOrder, [PairLine(o, i)]);
      var receiver := Select(outOrder, o);
      var sender := Select(inOrder, i);
      && r.routing == eff.routing[Some(receiver) := Some(sender)]
      && r.calls == eff.calls + [(sender, receiver)]
      && r.echo == eff.echo + (if PatchBus.EmitPatchRaises(reg, IntArg(sender), IntArg(receiver)) then [] else [PairLine(o, i)])
  {
    PairLineTarget(outOrder, inOrder, o, i);
    var body := [PairLine(o, i)];
    assert body[..0] == [];
    assert RunBlock(eff, reg, outOrder, inOrder, body) == StepLine(eff, reg, outOrder, inOrder, body[0]);
  }

  /** A rendered line with both indices in range designates the entries they select. */
  lemma {:induction false} PairLineTarget(outOrder: seq<int>, inOrder: seq<int>, o: int, i: int)
    requires -|outOrder| <= o < |outOrder| && -|inOrder| <= i < |inOrder|
    ensures LineTarget(PairLine(o, i), outOrder, inOrder) == Some(Target(o, i, Select(outOrder, o), Select(inOrder, i)))
  {
    ParseRouteLineOfPair(o, i);
  }

  /** The entry a routing line would write is already there. */
  predicate KeepsRouting(routing: map<Option<int>, Option<int>>, t: Option<Target>) {
    t.Some? ==> Some(t.value.receiver) in routing && routing[Some(t.value.receiver)] == Some(t.value.sender)
  }

  lemma {:induction false} NoOpLines(eff: BlockEffect, reg: Logicals, outOrder: seq<int>, inOrder: seq<int>, body: seq<string>)
    requires forall k :: 0 <= k < |body| ==> KeepsRouting(eff.routing, LineTarget(body[k], outOrder, inOrder))
    ensures RunBlock(eff, reg, outOrder, inOrder, body).routing == eff.routing
    decreases |body|
  {
    if body != [] {
      NoOpLines(eff, reg, outOrder, inOrder, body[..|body| - 1]);
    }
  }

  /** Sending back the routing block the emulator broadcast leaves the routing
      table as it is: every line names the entry that produced it. */
  lemma {:induction false} SnapshotReplayKeepsRouting(eff: BlockEffect, reg: Logicals, outOrder: seq<int>, inOrder: seq<int>)
    requires Increasing(inOrder)
    ensures RunBlock(eff, reg, outOrder, inOrder, PairLines(RoutePairs(outOrder, eff.routing, Positions(inOrder)))).routing == eff.routing
  {
    var inIndex := Positions(inOrder);
    var ps := RoutePairs(outOrder, eff.routing, inIndex);
    var body := PairLines(ps);
    PositionsInverse(inOrder);
    RoutePairsSound(outOrder, eff.routing, inIndex, |outOrder|);
    forall k | 0 <= k < |body|
      ensures KeepsRouting(eff.routing, LineTarget(body[k], outOrder, inOrder))
    {
      var (o, j) := ps[k];
      ParseRouteLineOfPair(o, j);
      var sid := RouteOf(eff.routing, outOrder[o]).value;
      assert inIndex[sid] == j;
      assert inOrder[j] == sid;
      assert LineTarget(body[k], outOrder, inOrder) == Some(Target(o, j, outOrder[o], sid));
    }
    NoOpLines(eff, reg, outOrder, inOrder, body);
  }

  /** After routing output o to input i, the next routing broadcast carries the line for that pair. */
  lemma {:induction false} WriteIsShown(routing: map<Option<int>, Option<int>>, outOrder: seq<int>, inOrder: seq<int>, o: nat, i: nat)
    requires Increasing(inOrder)
    requires o < |outOrder| && i < |inOrder|
    ensures (o, i) in RoutePairs(outOrder, routing[Some(outOrder[o]) := Some(inOrder[i])], Positions(inOrder))
  {
    var r := routing[Some(outOrder[o]) := Some(inOrder[i])];
    PositionsInverse(inOrder);
    assert RouteOf(r, outOrder[o]) == Some(inOrder[i]);
    assert Shown(r, outOrder, Positions(inOrder), o);
    var ps := RoutePairs(outOrder, r, Positions(inOrder));
    RoutePairsSound(outOrder, r, Positions(inOrder), |outOrder|);
    RoutePairsComplete(outOrder, r, Positions(inOrder), |outOrder|);
    var k :| 0 <= k < |ps| && ps[k].0 == o;
    assert ps[k].1 == i;
    assert ps[k] == (o, i);
  }

  // ---------------------------------------------------------------------------
  // A panel's session
  // ---------------------------------------------------------------------------

  /** What processing blocks does: the routing table and `emit_patch` call log after
      them, the replies the panel itself is sent, and the routing blocks broadcast
      to every other connected panel. */
  datatype SessionEffect = SessionEffect(routing: map<Option<int>, Option<int>>, calls: seq<(int, int)>,
                                         replies: seq<string>, broadcasts: seq<string>)

  /** `process_block` for a panel whose connection holds: an empty block does nothing;
      `PING:` is answered `ACK`; a routing block is applied, answered, and the new
      routing table broadcast, the panel itself among the receivers; every other
      header, the header-only queries included, is answered `NAK`. */
  function BlockOutcome(routing: map<Option<int>, Option<int>>, calls: seq<(int, int)>, reg: Logicals,
                        outOrder: seq<int>, inOrder: seq<int>, inIndex: map<int, nat>, block: seq<string>): SessionEffect
  {
    if block == [] then SessionEffect(routing, calls, [], [])
    else if block[0] == RoutingHeader then
      var eff := WriteEffect(routing, calls, reg, outOrder, inOrder, block[1..]);
      var table := RoutingBlock(RoutePairs(outOrder, eff.routing, inIndex));
      SessionEffect(eff.routing, eff.calls, WriteReplies(eff.echo) + [table], [table])
    else SessionEffect(routing, calls, [if block[0] == "PING:" then "ACK" else "NAK"], [])
  }

  /** The blocks of a session processed in order. */
  function RunSession(routing: map<Option<int>, Option<int>>, calls: seq<(int, int)>, reg: Logicals,
                      outOrder: seq<int>, inOrder: seq<int>, inIndex: map<int, nat>, blocks: seq<seq<string>>): SessionEffect
    decreases |blocks|
  {
    if blocks == [] then SessionEffect(routing, calls, [], [])
    else
      var s := RunSession(routing, calls, reg, outOrder, inOrder, inIndex, blocks[..|blocks| - 1]);
      var b := BlockOutcome(s.routing, s.calls, reg, outOrder, inOrder, inIndex, blocks[|blocks| - 1]);
      SessionEffect(b.routing, b.calls, s.replies + b.replies, s.broadcasts + b.broadcasts)
  }

  /** One more block extends the session by that block's outcome. */
  lemma {:induction false} RunSessionNext(routing: map<Option<int>, Option<int>>, calls: seq<(int, int)>, reg: Logicals,
                                          outOrder: seq<int>, inOrder: seq<int>, inIndex: map<int, nat>,
                                          blocks: seq<seq<string>>, block: seq<string>)
    ensures var s := RunSession(routing, calls, reg, outOrder, inOrder, inIndex, blocks);
      var b := BlockOutcome(s.routing, s.calls, reg, outOrder, inOrder, inIndex, block);
      RunSession(routing, calls, reg, outOrder, inOrder, inIndex, blocks + [block]) ==
        SessionEffect(b.routing, b.calls, s.replies + b.replies, s.broadcasts + b.broadcasts)
  {
    assert (blocks + [block])[..|blocks|] == blocks;
  }

  /** A session without a routing block changes no route, calls no device and
      broadcasts nothing; each non-empty block gets exactly one reply. */
  lemma {:induction false} QueriesKeepRouting(routing: map<Option<int>, Option<int>>, calls: seq<(int, int)>, reg: Logicals,
                                              outOrder: seq<int>, inOrder: seq<int>, inIndex: map<int, nat>, blocks: seq<seq<string>>)
    requires forall k :: 0 <= k < |blocks| ==> blocks[k] == [] || blocks[k][0] != RoutingHeader
    ensures var s := RunSession(routing, calls, reg, outOrder, inOrder, inIndex, blocks);
      s.routing == routing && s.calls == calls && s.broadcasts == [] && |s.replies| == NonEmptyCount(blocks)
    decreases |blocks|
  {
    if blocks != [] {
      var n := |blocks| - 1;
      QueriesKeepRouting(routing, calls, reg, outOrder, inOrder, inIndex, blocks[..n]);
    }
  }

  /** The number of non-empty blocks. */
  function NonEmptyCount(blocks: seq<seq<string>>): nat
    decreases |blocks|
  {
    if blocks == [] then 0
    else NonEmptyCount(blocks[..|blocks| - 1]) + (if blocks[|blocks| - 1] == [] then 0 else 1)
  }

  /** A panel typing a routing block of one line `o i` and a blank line routes output
      `o` to input `i`, calls `emit_patch` once for that pair, and is answered `ACK`
      and the echo (unless the call raised), then sent the new routing table. */
  lemma {:induction false} TypedRoutingWrite(routing: map<Option<int>, Option<int>>, calls: seq<(int, int)>, reg: Logicals,
                                             outOrder: seq<int>, inOrder: seq<int>, inIndex: map<int, nat>, o: nat, i: nat)
    requires o < |outOrder| && i < |inOrder|
    ensures var s := RunSession(routing, calls, reg, outOrder, inOrder, inIndex, Frame([RoutingHeader, PairLine(o, i), ""]).blocks);
      var r := routing[Some(outOrder[o]) := Some(inOrder[i])];
      var echo := if PatchBus.EmitPatchRaises(reg, IntArg(inOrder[i]), IntArg(outOrder[o])) then [] else [PairLine(o, i)];
      && s.routing == r
      && s.calls == calls + [(inOrder[i], outOrder[o])]
      && s.replies == WriteReplies(echo) + [RoutingBlock(RoutePairs(outOrder, r, inIndex))]
      && s.broadcasts == [RoutingBlock(RoutePairs(outOrder, r, inIndex))]
  {
    var block := [RoutingHeader, PairLine(o, i)];
    FrameOfRoutingLine(o, i);
    RunSessionNext(routing, calls, reg, outOrder, inOrder, inIndex, [], block);
    assert [] + [block] == [block];
    RoutingLineOutcome(routing, calls, reg, outOrder, inOrder, inIndex, o, i);
  }

  /** The outcome of the block `VIDEO OUTPUT ROUTING:` / `o i` on its own. */
  lemma {:induction false} RoutingLineOutcome(routing: map<Option<int>, Option<int>>, calls: seq<(int, int)>, reg: Logicals,
                                              outOrder: seq<int>, inOrder: seq<int>, inIndex: map<int, nat>, o: nat, i: nat)
    requires o < |outOrder| && i < |inOrder|
    ensures var b := BlockOutcome(routing, calls, reg, outOrder, inOrder, inIndex, [RoutingHeader, PairLine(o, i)]);
      var r := routing[Some(outOrder[o]) := Some(inOrder[i])];
      var echo := if PatchBus.EmitPatchRaises(reg, IntArg(inOrder[i]), IntArg(outOrder[o])) then [] else [PairLine(o, i)];
      && b.routing == r
      && b.calls == calls + [(inOrder[i], outOrder[o])]
      && b.replies == WriteReplies(echo) + [RoutingBlock(RoutePairs(outOrder, r, inIndex))]
      && b.broadcasts == [RoutingBlock(RoutePairs(outOrder, r, inIndex))]
  {
    var block := [RoutingHeader, PairLine(o, i)];
    assert block[1..] == [PairLine(o, i)];
    WriteLine(BlockEffect(routing, calls, []), reg, outOrder, inOrder, o, i);
  }

  /** The header, a rendered routing line and a blank line frame as one block of two lines. */
  lemma {:induction false} FrameOfRoutingLine(o: int, i: int)
    ensures Frame([RoutingHeader, PairLine(o, i), ""]).blocks == [[RoutingHeader, PairLine(o, i)]]
  {
    var line := PairLine(o, i);
    var input := [RoutingHeader, line, ""];
    IntToStringIsWord(o);
    IntToStringIsWord(i);
    StripNoSpace(RoutingHeader);
    assert line[0] == IntToString(o)[0];
    assert line[|line| - 1] == IntToString(i)[|IntToString(i)| - 1];
    StripNoSpace(line);
    assert Strip("") == "";
    assert input[..1][..0] == [];
    assert Frame(input[..1]) == Framing([], [RoutingHeader]);
    assert input[..2][..1] == input[..1];
    assert Frame(input[..2]) == Framing([], [RoutingHeader, line]);
    assert input[..3][..2] == input[..2];
    assert input[..3] == input;
  }


  // ---------------------------------------------------------------------------
  // Reconciliation
  // ---------------------------------------------------------------------------

  /** A receiver as the discovery cache holds it: its ID and its subscription's `sender_id`. */
  datatype CachedReceiver = CachedReceiver(id: Option<string>, sender: Option<string>)

  /** The subscribed sender of the first cached receiver with this ID; None when no cached receiver has it. */
  function CachedSender(cache: seq<CachedReceiver>, uuid: string): (r: Option<Option<string>>)
    ensures r.Some? <==> exists k :: 0 <= k < |cache| && cache[k].id == Some(uuid)
    ensures r.Some? ==> exists k :: FirstWithId(cache, uuid, k) && r.value == cache[k].sender
    decreases |cache|
  {
    if cache == [] then None
    else if cache[0].id == Some(uuid) then Some(cache[0].sender)
    else
      var r := CachedSender(cache[1..], uuid);
      assert forall k :: 0 < k < |cache| ==> cache[k] == cache[1..][k - 1];
      r
  }

  /** Position k holds the first cached receiver with this ID. */
  predicate FirstWithId(cache: seq<CachedReceiver>, uuid: string, k: int) {
    0 <= k < |cache| && cache[k].id == Some(uuid) && forall j :: 0 <= j < k ==> cache[j].id != Some(uuid)
  }

  /** One essence agrees when it is not defined on both sides, or the cache shows
      the receiver's device subscribed to the source's device. */
  predicate EssenceAgrees(src: Group, rcv: Group, e: Essence, cache: seq<CachedReceiver>) {
    Present(src.Get(e)) && Present(rcv.Get(e)) ==> CachedSender(cache, rcv.Get(e).value) == Some(Some(src.Get(e).value))
  }

  predicate SourceMatches(src: Group, rcv: Group, cache: seq<CachedReceiver>) {
    forall e :: EssenceAgrees(src, rcv, e, cache)
  }

  /** The position of the first source, in registry order, that matches the receiver. */
  function FirstMatching(sources: Table, rcv: Group, cache: seq<CachedReceiver>): (r: Option<nat>)
    ensures r.Some? ==> r.value < |sources| && SourceMatches(sources[r.value].group, rcv, cache)
    ensures r.Some? ==> forall k :: 0 <= k < r.value ==> !SourceMatches(sources[k].group, rcv, cache)
    ensures r.None? ==> forall k :: 0 <= k < |sources| ==> !SourceMatches(sources[k].group, rcv, cache)
    decreases |sources|
  {
    if sources == [] then None
    else if SourceMatches(sources[0].group, rcv, cache) then Some(0)
    else
      match FirstMatching(sources[1..], rcv, cache)
      case Some(k) => Some(k + 1)
      case None => None
  }

  /** One receiver's pass: its entry becomes the first matching source's ID, or stays as it was. */
  function ReconcileOne(routing: map<Option<int>, Option<int>>, rcv: Group, sources: Table, cache: seq<CachedReceiver>): map<Option<int>, Option<int>> {
    match FirstMatching(sources, rcv, cache)
    case Some(k) => routing[rcv.id := sources[k].group.id]
    case None => routing
  }

  /** Every receiver in registry order. */
  function Reconcile(routing: map<Option<int>, Option<int>>, receivers: Table, sources: Table, cache: seq<CachedReceiver>): map<Option<int>, Option<int>>
    decreases |receivers|
  {
    if receivers == [] then routing
    else ReconcileOne(Reconcile(routing, receivers[..|receivers| - 1], sources, cache), receivers[|receivers| - 1].group, sources, cache)
  }

  /** An entry no matched receiver writes keeps its previous value, stale or not. */
  lemma {:induction false} ReconcileKeepsUnmatched(routing: map<Option<int>, Option<int>>, receivers: Table, sources: Table, cache: seq<CachedReceiver>, key: Option<int>)
    requires forall k :: 0 <= k < |receivers| && receivers[k].group.id == key ==> FirstMatching(sources, receivers[k].group, cache).None?
    ensures key in Reconcile(routing, receivers, sources, cache) <==> key in routing
    ensures key in routing ==> Reconcile(routing, receivers, sources, cache)[key] == routing[key]
    decreases |receivers|
  {
    if receivers != [] {
      ReconcileKeepsUnmatched(routing, receivers[..|receivers| - 1], sources, cache, key);
    }
  }

  /** A matched receiver's entry holds the ID of its first matching source, unless a
      later receiver with the same ID also matched. */
  lemma {:induction false} ReconcileSetsMatch(routing: map<Option<int>, Option<int>>, receivers: Table, sources: Table, cache: seq<CachedReceiver>, k: nat, j: nat)
    requires k < |receivers| && FirstMatching(sources, receivers[k].group, cache) == Some(j)
    requires forall l :: k < l < |receivers| && receivers[l].group.id == receivers[k].group.id ==>
      FirstMatching(sources, receivers[l].group, cache).None?
    ensures receivers[k].group.id in Reconcile(routing, receivers, sources, cache)
    ensures Reconcile(routing, receivers, sources, cache)[receivers[k].group.id] == sources[j].group.id
    decreases |receivers|
  {
    var n := |receivers| - 1;
    var front := receivers[..n];
    if k < n {
      assert front[k] == receivers[k];
      forall l | k < l < |front| && front[l].group.id == front[k].group.id
        ensures FirstMatching(sources, front[l].group, cache).None?
      {
        assert front[l] == receivers[l];
      }
      ReconcileSetsMatch(routing, front, sources, cache, k, j);
      ReconcileLastKeeps(routing, receivers, sources, cache, receivers[k].group.id);
    } else {
      ReconcileLastWrites(routing, receivers, sources, cache, j);
    }
  }

  /** The last receiver, when it matches, writes its entry over the earlier passes. */
  lemma {:induction false} ReconcileLastWrites(routing: map<Option<int>, Option<int>>, receivers: Table, sources: Table, cache: seq<CachedReceiver>, j: nat)
    requires receivers != [] && FirstMatching(sources, receivers[|receivers| - 1].group, cache) == Some(j)
    ensures Reconcile(routing, receivers, sources, cache) ==
      Reconcile(routing, receivers[..|receivers| - 1], sources, cache)[receivers[|receivers| - 1].group.id := sources[j].group.id]
  {
  }

  /** The last receiver leaves an entry alone unless it matched and carries that key. */
  lemma {:induction false} ReconcileLastKeeps(routing: map<Option<int>, Option<int>>, receivers: Table, sources: Table, cache: seq<CachedReceiver>, key: Option<int>)
    requires receivers != [] && key in Reconcile(routing, receivers[..|receivers| - 1], sources, cache)
    requires receivers[|receivers| - 1].group.id != key || FirstMatching(sources, receivers[|receivers| - 1].group, cache).None?
    ensures key in Reconcile(routing, receivers, sources, cache)
    ensures Reconcile(routing, receivers, sources, cache)[key] == Reconcile(routing, receivers[..|receivers| - 1], sources, cache)[key]
  {
  }

  /** Reconciling from an empty table, as a reload does, leaves entries only for
      receivers that matched a source: stale entries are gone. */
  lemma {:induction false} ReconcileFromEmpty(receivers: Table, sources: Table, cache: seq<CachedReceiver>, key: Option<int>)
    ensures key in Reconcile(map[], receivers, sources, cache) ==>
      exists k :: 0 <= k < |receivers| && receivers[k].group.id == key && FirstMatching(sources, receivers[k].group, cache).Some?
  {
    if !exists k :: 0 <= k < |receivers| && receivers[k].group.id == key && FirstMatching(sources, receivers[k].group, cache).Some? {
      ReconcileKeepsUnmatched(map[], receivers, sources, cache, key);
    }
  }

  /** A source that shares no essence with the receiver matches it. */
  lemma {:induction false} SharedNothingMatches(src: Group, rcv: Group, cache: seq<CachedReceiver>)
    requires forall e :: !(Present(src.Get(e)) && Present(rcv.Get(e)))
    ensures SourceMatches(src, rcv, cache)
  {
  }
}
