/** The Videohub emulator (protocols/bmdvideohub.py): the label and index tables
    taken from the registry, the routing table, the connected panels and what
    each has been sent. Panels receive the tables on connect and send blocks;
    routing writes go to the patch orchestrator and are broadcast to every panel. */
module Videohub {
  import opened Wrappers
  import opened Text
  import opened Logical
  import opened VideohubSpec
  import PatchBus

  /** A connected panel, identified by its connection. */
  type Client = nat

  /** Everything panel `c` has been sent, by a send log. */
  function Log(sent: map<Client, seq<string>>, c: Client): seq<string> {
    if c in sent then sent[c] else []
  }

  /** What panel `c` is sent by a reply to `writer` followed by a broadcast of `table`
      to the panels in `connected`. */
  function Delivered(c: Client, writer: Client, replies: seq<string>, connected: set<Client>, table: string): seq<string> {
    (if c == writer then replies else []) + (if c in connected then [table] else [])
  }

  /** The header-only queries the emulator looks up; the keys carry no colon. */
  const KnownQueries: set<string> := {"OUTPUT LABELS", "INPUT LABELS", "VIDEO OUTPUT ROUTING", "VIDEOHUB DEVICE"}

  class VideohubEmulator {
    /** Source ID to name, and receiver ID to name. */
    var inputs: map<int, string>
    var outputs: map<int, string>
    /** Receiver ID to the source ID believed to feed it. */
    var routing: map<Option<int>, Option<int>>
    var clients: set<Client>
    /** Input position to source ID and its inverse; likewise for outputs. */
    var inputIndexMap: seq<int>
    var outputIndexMap: seq<int>
    var inputIdToIndex: map<int, nat>
    var outputIdToIndex: map<int, nat>
    /** Everything written to each panel, one entry per `send` (the wire adds a blank line after each). */
    var sent: map<Client, seq<string>>
    /** The `emit_patch` calls made, as (source ID, receiver ID). */
    var patches: seq<(int, int)>

    /** The index maps are the sorted IDs of the label tables and their positions. */
    ghost predicate Valid()
      reads this`inputs, this`outputs, this`inputIndexMap, this`outputIndexMap, this`inputIdToIndex, this`outputIdToIndex
    {
      IndexedBy(inputs, inputIndexMap, inputIdToIndex) && IndexedBy(outputs, outputIndexMap, outputIdToIndex)
    }

    function SentTo(c: Client): seq<string>
      reads this`sent
    {
      Log(sent, c)
    }

    constructor(reg: Logicals)
      ensures Valid()
      ensures inputs == Labels(reg.sources) && outputs == Labels(reg.receivers)
      ensures routing == map[] && clients == {} && sent == map[] && patches == []
    {
      clients := {};
      sent := map[];
      patches := [];
      new;
      LoadLabels(reg);
    }

    /** `load_labels`: the label tables from the registry, their sorted index maps,
        and an empty routing table. */
    method LoadLabels(reg: Logicals)
      modifies this`inputs, this`outputs, this`inputIndexMap, this`outputIndexMap, this`inputIdToIndex, this`outputIdToIndex, this`routing
      ensures Valid()
      ensures inputs == Labels(reg.sources) && outputs == Labels(reg.receivers)
      ensures routing == map[]
    {
      inputs := Labels(reg.sources);
      outputs := Labels(reg.receivers);
      inputIndexMap := SortedSet(inputs.Keys);
      outputIndexMap := SortedSet(outputs.Keys);
      inputIdToIndex := Positions(inputIndexMap);
      outputIdToIndex := Positions(outputIndexMap);
      routing := map[];
    }

    function DeviceInfo(): string
      reads this`inputIndexMap, this`outputIndexMap
    {
      DeviceInfoText(|inputIndexMap|, |outputIndexMap|)
    }

    function InputLabels(): string
      reads this`inputs, this`outputs, this`inputIndexMap, this`outputIndexMap, this`inputIdToIndex, this`outputIdToIndex
      requires Valid()
    {
      IndexedByInverse(inputs, inputIndexMap, inputIdToIndex);
      LabelsBlock("INPUT LABELS:", inputIndexMap, inputs)
    }

    function OutputLabels(): string
      reads this`inputs, this`outputs, this`inputIndexMap, this`outputIndexMap, this`inputIdToIndex, this`outputIdToIndex
      requires Valid()
    {
      IndexedByInverse(outputs, outputIndexMap, outputIdToIndex);
      LabelsBlock("OUTPUT LABELS:", outputIndexMap, outputs)
    }

    /** The routing block for the current table. */
    function CurrentRouting(): string
      reads this`routing, this`outputIndexMap, this`inputIdToIndex
    {
      RoutingBlock(RoutePairs(outputIndexMap, routing, inputIdToIndex))
    }

    /** The five blocks a panel is sent when it connects. */
    function Welcome(): seq<string>
      reads this`inputs, this`outputs, this`inputIndexMap, this`outputIndexMap, this`inputIdToIndex, this`outputIdToIndex, this`routing
      requires Valid()
    {
      [Preamble, DeviceInfo(), InputLabels(), OutputLabels(), CurrentRouting()]
    }

    /** `output_routing`: one line per output whose source has an input index, in output order. */
    method OutputRouting() returns (text: string)
      ensures text == RoutingBlock(RoutePairs(outputIndexMap, routing, inputIdToIndex))
    {
      var lines: seq<string> := [];
      ghost var ps: seq<(nat, nat)> := [];
      var i := 0;
      while i < |outputIndexMap|
        invariant 0 <= i <= |outputIndexMap|
        invariant ps == RoutePairsUpTo(outputIndexMap, routing, inputIdToIndex, i)
        invariant lines == PairLines(ps)
      {
        var sender := RouteOf(routing, outputIndexMap[i]);
        if sender.Some? && sender.value in inputIdToIndex {
          var j := inputIdToIndex[sender.value];
          ps := ps + [(i, j)];
          lines := lines + [PairLine(i, j)];
        }
        i := i + 1;
      }
      text := RoutingHeader + "\n" + Join(lines, "\n");
    }

    /** `send`: the content is appended to what the panel has been sent. */
    method Send(c: Client, content: string)
      modifies this`sent
      ensures sent == old(sent)[c := Log(old(sent), c) + [content]]
    {
      sent := sent[c := Log(sent, c) + [content]];
    }

    /** `broadcast_routing_update`: every connected panel is sent the routing block;
        a panel whose connection fails (`dead`) is dropped. */
    method Broadcast(dead: set<Client>)
      modifies this`sent, this`clients
      ensures clients == old(clients) - dead
      ensures forall c :: SentTo(c) == old(SentTo(c)) + (if c in old(clients) then [CurrentRouting()] else [])
    {
      var content := OutputRouting();
      NotifyAll(content, dead);
    }

    /** The loop of `broadcast_routing_update`: each panel connected at the start is
        sent the content once; those whose drain fails are dropped, the others stay. */
    method NotifyAll(content: string, dead: set<Client>)
      modifies this`sent, this`clients
      ensures clients == old(clients) - dead
      ensures forall c :: SentTo(c) == old(SentTo(c)) + (if c in old(clients) then [content] else [])
    {
      ghost var start := sent;
      var pending := clients;
      while pending != {}
        invariant pending <= old(clients)
        invariant clients == old(clients) - (dead - pending)
        invariant forall d :: Log(sent, d) == Log(start, d) + (if d in old(clients) - pending then [content] else [])
        decreases pending
      {
        var c :| c in pending;
        Send(c, content);
        if c in dead {
          clients := clients - {c};
        }
        pending := pending - {c};
      }
    }

    /** The body of a routing block: each line that parses and indexes both maps
        sets the receiver's entry and calls `emit_patch`; it is echoed unless that call raised. */
    method ApplyRouting(body: seq<string>, reg: Logicals, device: PatchBus.Device) returns (changed: seq<string>)
      modifies this`routing, this`patches
      ensures var eff := WriteEffect(old(routing), old(patches), reg, outputIndexMap, inputIndexMap, body);
        routing == eff.routing && patches == eff.calls && changed == eff.echo
    {
      changed := [];
      var k := 0;
      while k < |body|
        invariant 0 <= k <= |body|
        invariant BlockEffect(routing, patches, changed) == WriteEffect(old(routing), old(patches), reg, outputIndexMap, inputIndexMap, body[..k])
      {
        assert body[..k + 1][..k] == body[..k];
        var target := LineTarget(body[k], outputIndexMap, inputIndexMap);
        if target.Some? {
          var t := target.value;
          routing := routing[Some(t.receiver) := Some(t.sender)];
          var outcome := PatchBus.EmitPatch(reg, IntArg(t.sender), IntArg(t.receiver), device);
          patches := patches + [(t.sender, t.receiver)];
          if outcome.Some? {
            changed := changed + [PairLine(t.outIdx, t.inIdx)];
          }
        }
        k := k + 1;
      }
      assert body[..k] == body;
    }

    /** A `VIDEO OUTPUT ROUTING:` block: apply the body, answer `ACK` and the echo,
        then broadcast; on a dead connection the drain raises before the broadcast. */
    method RoutingWrite(body: seq<string>, client: Client, reg: Logicals, device: PatchBus.Device, dead: set<Client>) returns (ended: bool)
      modifies this`sent, this`clients, this`routing, this`patches
      ensures ended <==> client in dead
      ensures var eff := WriteEffect(old(routing), old(patches), reg, outputIndexMap, inputIndexMap, body);
        routing == eff.routing && patches == eff.calls
      ensures client in dead ==> clients == old(clients)
      ensures client in dead ==>
        var eff := WriteEffect(old(routing), old(patches), reg, outputIndexMap, inputIndexMap, body);
        sent == old(sent)[client := old(SentTo(client)) + WriteReplies(eff.echo)]
      ensures client !in dead ==> clients == old(clients) - dead
      ensures client !in dead ==>
        var eff := WriteEffect(old(routing), old(patches), reg, outputIndexMap, inputIndexMap, body);
        forall c :: SentTo(c) == old(SentTo(c)) + Delivered(c, client, WriteReplies(eff.echo), old(clients), CurrentRouting())
    {
      var changed := ApplyRouting(body, reg, device);
      ReplyToWrite(client, changed);
      if client in dead {
        return true;
      }
      Broadcast(dead);
      return false;
    }

    /** The replies to a routing block: `ACK`, then the accepted lines under the
        routing header when there are any. */
    method ReplyToWrite(client: Client, changed: seq<string>)
      modifies this`sent
      ensures sent == old(sent)[client := Log(old(sent), client) + WriteReplies(changed)]
    {
      ghost var prior := Log(sent, client);
      Send(client, "ACK");
      if changed != [] {
        var echo := RoutingHeader + "\n" + Join(changed, "\n");
        Send(client, echo);
        assert prior + ["ACK"] + [echo] == prior + WriteReplies(changed);
      } else {
        assert prior + ["ACK"] == prior + WriteReplies(changed);
      }
    }

    /** `process_block`: an empty block gets no reply; `PING:` gets `ACK`; a routing
        block is applied; every other header, the header-only queries included, gets `NAK`.
        The result tells whether the panel's connection failed on the reply. */
    method ProcessBlock(lines: seq<string>, client: Client, reg: Logicals, device: PatchBus.Device, dead: set<Client>) returns (ended: bool)
      modifies this`sent, this`clients, this`routing, this`patches
      ensures ended <==> lines != [] && client in dead
      ensures old(clients) - dead <= clients <= old(clients)
      ensures old(SentTo(client)) <= SentTo(client)
      ensures lines == [] ==> routing == old(routing) && patches == old(patches) && clients == old(clients) && sent == old(sent)
      ensures lines != [] && lines[0] != RoutingHeader ==>
        && routing == old(routing) && patches == old(patches) && clients == old(clients)
        && sent == old(sent)[client := old(SentTo(client)) + [if lines[0] == "PING:" then "ACK" else "NAK"]]
      ensures lines != [] && lines[0] == RoutingHeader ==>
        var eff := WriteEffect(old(routing), old(patches), reg, outputIndexMap, inputIndexMap, lines[1..]);
        routing == eff.routing && patches == eff.calls
      ensures lines != [] && lines[0] == RoutingHeader && client in dead ==>
        var eff := WriteEffect(old(routing), old(patches), reg, outputIndexMap, inputIndexMap, lines[1..]);
        clients == old(clients) && sent == old(sent)[client := old(SentTo(client)) + WriteReplies(eff.echo)]
      ensures lines != [] && lines[0] == RoutingHeader && client !in dead ==>
        var eff := WriteEffect(old(routing), old(patches), reg, outputIndexMap, inputIndexMap, lines[1..]);
        && clients == old(clients) - dead
        && forall c :: SentTo(c) == old(SentTo(c)) + Delivered(c, client, WriteReplies(eff.echo), old(clients), CurrentRouting())
    {
      if lines == [] {
        return false;
      }
      var header := lines[0];
      var body := lines[1..];
      if header == "PING:" {
        Send(client, "ACK");
        return client in dead;
      }
      if EndsWith(header, ":") && body == [] && header in KnownQueries {
        // Unreachable: no lookup key ends with a colon.
        assert false;
      }
      if header == RoutingHeader {
        ended := RoutingWrite(body, client, reg, device, dead);
      } else {
        Send(client, "NAK");
        ended := client in dead;
      }
    }

    /** `set_routing`: nothing happens when the entry already holds the source and
        no broadcast is forced; otherwise only that entry changes, then a broadcast. */
    method SetRouting(sender: Option<int>, receiver: Option<int>, force: bool, dead: set<Client>)
      modifies this`sent, this`clients, this`routing
      ensures var current := if receiver in old(routing) then old(routing)[receiver] else None;
        if current == sender && !force then
          routing == old(routing) && clients == old(clients) && sent == old(sent)
        else
          && routing == old(routing)[receiver := sender]
          && clients == old(clients) - dead
          && forall c :: SentTo(c) == old(SentTo(c)) + (if c in old(clients) then [CurrentRouting()] else [])
    {
      var current := if receiver in routing then routing[receiver] else None;
      if current == sender && !force {
        return;
      }
      routing := routing[receiver := sender];
      Broadcast(dead);
    }

    /** `refresh_routing_from_nmos`: each receiver, in registry order, takes the ID of
        the first source whose essences agree with the cached subscriptions. */
    method RefreshRoutingFromNmos(reg: Logicals, cache: seq<CachedReceiver>)
      modifies this`routing
      ensures routing == Reconcile(old(routing), reg.receivers, reg.sources, cache)
    {
      var i := 0;
      while i < |reg.receivers|
        invariant 0 <= i <= |reg.receivers|
        invariant routing == Reconcile(old(routing), reg.receivers[..i], reg.sources, cache)
      {
        assert reg.receivers[..i + 1][..i] == reg.receivers[..i];
        var rcv := reg.receivers[i].group;
        var found := FindMatchingSource(reg.sources, rcv, cache);
        if found.Some? {
          routing := routing[rcv.id := reg.sources[found.value].group.id];
        }
        i := i + 1;
      }
      assert reg.receivers[..i] == reg.receivers;
    }

    /** `reload_and_broadcast`: reload the labels (emptying the routing table),
        reconcile, and broadcast. */
    method ReloadAndBroadcast(reg: Logicals, cache: seq<CachedReceiver>, dead: set<Client>)
      modifies this`inputs, this`outputs, this`inputIndexMap, this`outputIndexMap, this`inputIdToIndex, this`outputIdToIndex
      modifies this`routing, this`sent, this`clients
      ensures Valid()
      ensures inputs == Labels(reg.sources) && outputs == Labels(reg.receivers)
      ensures routing == Reconcile(map[], reg.receivers, reg.sources, cache)
      ensures clients == old(clients) - dead
      ensures forall c :: SentTo(c) == old(SentTo(c)) + (if c in old(clients) then [CurrentRouting()] else [])
    {
      LoadLabels(reg);
      RefreshRoutingFromNmos(reg, cache);
      Broadcast(dead);
    }

    /** The start-up steps before serving: reconcile, then broadcast. */
    method Start(reg: Logicals, cache: seq<CachedReceiver>, dead: set<Client>)
      modifies this`routing, this`sent, this`clients
      ensures routing == Reconcile(old(routing), reg.receivers, reg.sources, cache)
      ensures clients == old(clients) - dead
      ensures forall c :: SentTo(c) == old(SentTo(c)) + (if c in old(clients) then [CurrentRouting()] else [])
    {
      RefreshRoutingFromNmos(reg, cache);
      Broadcast(dead);
    }

    /** `stop`: every panel connection is closed and forgotten. */
    method Stop()
      modifies this`clients
      ensures clients == {}
    {
      clients := {};
    }

    /** `handle_client`: register the panel and send it the five blocks; on a dead
        connection stop there. Otherwise broadcast, process the framed blocks of the
        panel's input, and at the end of input forget the panel. Every other live
        panel is sent the routing table after the greeting and after each routing block;
        a failing panel gets the first of these and is dropped. */
    method HandleClient(client: Client, input: seq<string>, reg: Logicals, device: PatchBus.Device, dead: set<Client>)
      requires Valid()
      modifies this`sent, this`clients, this`routing, this`patches
      ensures client in dead ==>
        && clients == old(clients) + {client} && routing == old(routing) && patches == old(patches)
        && sent == old(sent)[client := old(SentTo(client)) + old(Welcome())]
      ensures client !in dead ==>
        var s := RunSession(old(routing), old(patches), reg, outputIndexMap, inputIndexMap, inputIdToIndex, Frame(input).blocks);
        && routing == s.routing && patches == s.calls
        && clients == old(clients) - dead - {client}
        && SentTo(client) == old(SentTo(client)) + old(Welcome()) + [old(CurrentRouting())] + s.replies
        && (forall d :: d != client && d in old(clients) && d !in dead ==>
              SentTo(d) == old(SentTo(d)) + [old(CurrentRouting())] + s.broadcasts)
        && (forall d :: d != client && d in old(clients) && d in dead ==> SentTo(d) == old(SentTo(d)) + [old(CurrentRouting())])
        && (forall d :: d != client && d !in old(clients) ==> SentTo(d) == old(SentTo(d)))
    {
      var ended := Greet(client, dead);
      if ended {
        return;
      }
      ghost var greeted := sent;
      ghost var table := CurrentRouting();
      Broadcast(dead);
      ghost var before := sent;
      ghost var s := RunSession(routing, patches, reg, outputIndexMap, inputIndexMap, inputIdToIndex, Frame(input).blocks);
      ReadSession(client, input, reg, device, dead);
      SessionLogs(client, dead, s, old(sent), greeted, before, old(Welcome()), table, old(clients));
      clients := clients - {client};
    }

    /** The logs after `handle_client`, composed from the greeting, the broadcast
        that follows it and the session. */
    lemma {:induction false} SessionLogs(client: Client, dead: set<Client>, s: SessionEffect, sent0: map<Client, seq<string>>,
                                         greeted: map<Client, seq<string>>, before: map<Client, seq<string>>,
                                         welcome: seq<string>, table: string, clients0: set<Client>)
      requires client !in dead
      requires greeted == sent0[client := Log(sent0, client) + welcome]
      requires forall d :: Log(before, d) == Log(greeted, d) + (if d in clients0 + {client} then [table] else [])
      requires Log(sent, client) == Log(before, client) + s.replies
      requires forall d :: d != client && d in (clients0 + {client}) - dead && d !in dead ==> Log(sent, d) == Log(before, d) + s.broadcasts
      requires forall d :: d !in (clients0 + {client}) - dead ==> Log(sent, d) == Log(before, d)
      ensures SentTo(client) == Log(sent0, client) + welcome + [table] + s.replies
      ensures forall d :: d != client && d in clients0 && d !in dead ==> SentTo(d) == Log(sent0, d) + [table] + s.broadcasts
      ensures forall d :: d != client && d in clients0 && d in dead ==> SentTo(d) == Log(sent0, d) + [table]
      ensures forall d :: d != client && d !in clients0 ==> SentTo(d) == Log(sent0, d)
    {
      assert Log(before, client) == Log(sent0, client) + welcome + [table];
      forall d | d != client
        ensures Log(before, d) == Log(sent0, d) + (if d in clients0 then [table] else [])
      {
        assert Log(greeted, d) == Log(sent0, d);
      }
    }

    /** The prelude of `handle_client`: the panel is registered and sent the five
        blocks; the drain that follows fails on a dead connection. */
    method Greet(client: Client, dead: set<Client>) returns (ended: bool)
      requires Valid()
      modifies this`sent, this`clients
      ensures ended <==> client in dead
      ensures clients == old(clients) + {client}
      ensures sent == old(sent)[client := Log(old(sent), client) + Welcome()]
    {
      var info := DeviceInfo();
      var inLabels := InputLabels();
      var outLabels := OutputLabels();
      var table := OutputRouting();
      assert [Preamble, info, inLabels, outLabels, table] == Welcome();
      clients := clients + {client};
      SendFive(client, Preamble, info, inLabels, outLabels, table);
      ended := client in dead;
    }

    /** Five sends to one panel in a row: its log gains the five contents in order. */
    method SendFive(c: Client, a: string, b: string, d: string, e: string, f: string)
      modifies this`sent
      ensures sent == old(sent)[c := Log(old(sent), c) + [a, b, d, e, f]]
    {
      ghost var prior := Log(sent, c);
      Send(c, a);
      Send(c, b);
      Send(c, d);
      Send(c, e);
      Send(c, f);
      assert prior + [a] + [b] + [d] + [e] + [f] == prior + [a, b, d, e, f];
    }

    /** The read loop of `handle_client`: non-blank stripped lines are buffered and a
        blank line hands the buffer to `process_block`; an unterminated buffer at the
        end of input is dropped. The session's effect is that of the framed blocks,
        in order; a panel connected at the start that does not fail is sent every
        routing table broadcast. */
    method ReadSession(client: Client, input: seq<string>, reg: Logicals, device: PatchBus.Device, dead: set<Client>)
      requires client !in dead && client in clients
      modifies this`sent, this`clients, this`routing, this`patches
      ensures client in clients
      ensures old(clients) - dead <= clients <= old(clients)
      ensures var s := RunSession(old(routing), old(patches), reg, outputIndexMap, inputIndexMap, inputIdToIndex, Frame(input).blocks);
        && routing == s.routing && patches == s.calls
        && SentTo(client) == old(SentTo(client)) + s.replies
        && (forall d :: d != client && d in old(clients) && d !in dead ==> SentTo(d) == old(SentTo(d)) + s.broadcasts)
        && (forall d :: d !in old(clients) ==> SentTo(d) == old(SentTo(d)))
    {
      ghost var sent0 := sent;
      ghost var clients0 := clients;
      var buffer: seq<string> := [];
      var i := 0;
      while i < |input|
        invariant 0 <= i <= |input|
        invariant buffer == Frame(input[..i]).buffer
        invariant Reached(RunSession(old(routing), old(patches), reg, outputIndexMap, inputIndexMap, inputIdToIndex, Frame(input[..i]).blocks),
                          client, dead, sent0, clients0)
      {
        var line := Strip(input[i]);
        FrameNext(input, i);
        if line == "" {
          FlushBlock(buffer, client, reg, device, dead, Frame(input[..i]).blocks, old(routing), old(patches), sent0, clients0);
          buffer := [];
        } else {
          buffer := buffer + [line];
        }
        i := i + 1;
      }
      assert input[..i] == input;
    }

    /** Where a session stands after some of its blocks `s`, relative to the log and
        the connected panels at its start. */
    ghost predicate Reached(s: SessionEffect, client: Client, dead: set<Client>, sent0: map<Client, seq<string>>, clients0: set<Client>)
      reads this`routing, this`patches, this`sent, this`clients
    {
      && routing == s.routing && patches == s.calls
      && client in clients && clients0 - dead <= clients <= clients0
      && Log(sent, client) == Log(sent0, client) + s.replies
      && (forall d :: d != client && d in clients0 && d !in dead ==> Log(sent, d) == Log(sent0, d) + s.broadcasts)
      && (forall d :: d !in clients0 ==> Log(sent, d) == Log(sent0, d))
    }

    /** One blank line of the read loop: the session advances by one block. */
    method FlushBlock(buffer: seq<string>, client: Client, reg: Logicals, device: PatchBus.Device, dead: set<Client>,
                      ghost blocks: seq<seq<string>>, ghost routing0: map<Option<int>, Option<int>>, ghost patches0: seq<(int, int)>,
                      ghost sent0: map<Client, seq<string>>, ghost clients0: set<Client>)
      requires client !in dead
      requires Reached(RunSession(routing0, patches0, reg, outputIndexMap, inputIndexMap, inputIdToIndex, blocks), client, dead, sent0, clients0)
      modifies this`sent, this`clients, this`routing, this`patches
      ensures Reached(RunSession(routing0, patches0, reg, outputIndexMap, inputIndexMap, inputIdToIndex, blocks + [buffer]), client, dead, sent0, clients0)
    {
      ghost var s := RunSession(routing0, patches0, reg, outputIndexMap, inputIndexMap, inputIdToIndex, blocks);
      ghost var b := BlockOutcome(s.routing, s.calls, reg, outputIndexMap, inputIndexMap, inputIdToIndex, buffer);
      RunSessionNext(routing0, patches0, reg, outputIndexMap, inputIndexMap, inputIdToIndex, blocks, buffer);
      ghost var mid := sent;
      EndBlock(buffer, client, reg, device, dead);
      ReachedNext(s, b, client, dead, sent0, clients0, mid);
    }

    /** The bookkeeping of one step: a state reached after `s`, followed by a block
        whose outcome is `b`, is the state reached after both. */
    lemma {:induction false} ReachedNext(s: SessionEffect, b: SessionEffect, client: Client, dead: set<Client>,
                                         sent0: map<Client, seq<string>>, clients0: set<Client>, mid: map<Client, seq<string>>)
      requires client in clients && clients0 - dead <= clients <= clients0
      requires routing == b.routing && patches == b.calls
      requires Log(mid, client) == Log(sent0, client) + s.replies
      requires forall d :: d != client && d in clients0 && d !in dead ==> Log(mid, d) == Log(sent0, d) + s.broadcasts
      requires forall d :: d !in clients0 ==> Log(mid, d) == Log(sent0, d)
      requires Log(sent, client) == Log(mid, client) + b.replies
      requires forall d :: d != client && d in clients0 && d !in dead ==> Log(sent, d) == Log(mid, d) + b.broadcasts
      requires forall d :: d !in clients0 ==> Log(sent, d) == Log(mid, d)
      ensures Reached(SessionEffect(b.routing, b.calls, s.replies + b.replies, s.broadcasts + b.broadcasts), client, dead, sent0, clients0)
    {
      assert Log(sent, client) == Log(sent0, client) + (s.replies + b.replies);
      forall d | d != client && d in clients0 && d !in dead
        ensures Log(sent, d) == Log(sent0, d) + (s.broadcasts + b.broadcasts)
      {
        assert Log(sent, d) == Log(sent0, d) + s.broadcasts + b.broadcasts;
      }
    }

    /** A blank line: the buffered block goes to `process_block`. The panel does not
        fail, so it stays connected; it is sent the block's replies, and every other
        panel connected before the block that does not fail is sent its broadcasts. */
    method EndBlock(buffer: seq<string>, client: Client, reg: Logicals, device: PatchBus.Device, dead: set<Client>)
      requires client !in dead && client in clients
      modifies this`sent, this`clients, this`routing, this`patches
      ensures client in clients
      ensures old(clients) - dead <= clients <= old(clients)
      ensures var b := BlockOutcome(old(routing), old(patches), reg, outputIndexMap, inputIndexMap, inputIdToIndex, buffer);
        && routing == b.routing && patches == b.calls
        && SentTo(client) == old(SentTo(client)) + b.replies
        && (forall d :: d != client && d in old(clients) && d !in dead ==> SentTo(d) == old(SentTo(d)) + b.broadcasts)
        && (forall d :: d !in old(clients) ==> SentTo(d) == old(SentTo(d)))
    {
      var ended := ProcessBlock(buffer, client, reg, device, dead);
      assert !ended;
    }
  }

  /** The essence loop of reconciliation: every essence defined on both sides must
      have its receiver in the cache, subscribed to the source's device. */
  method CheckEssences(src: Group, rcv: Group, cache: seq<CachedReceiver>) returns (ok: bool)
    ensures ok == SourceMatches(src, rcv, cache)
  {
    var i := 0;
    while i < |Essences|
      invariant 0 <= i <= |Essences|
      invariant forall l :: 0 <= l < i ==> EssenceAgrees(src, rcv, Essences[l], cache)
    {
      var e := Essences[i];
      var senderId := src.Get(e);
      var receiverUuid := rcv.Get(e);
      if Present(senderId) && Present(receiverUuid) {
        var cached := CachedSender(cache, receiverUuid.value);
        if cached.None? {
          assert !EssenceAgrees(src, rcv, e, cache);
          return false;
        }
        if cached.value != Some(senderId.value) {
          assert !EssenceAgrees(src, rcv, e, cache);
          return false;
        }
      }
      i := i + 1;
    }
    forall e
      ensures EssenceAgrees(src, rcv, e, cache)
    {
      EssencesComplete(e);
    }
    return true;
  }

  /** The source loop of reconciliation: the first source, in registry order, that matches the receiver. */
  method FindMatchingSource(sources: Table, rcv: Group, cache: seq<CachedReceiver>) returns (found: Option<nat>)
    ensures found == FirstMatching(sources, rcv, cache)
  {
    var j := 0;
    while j < |sources|
      invariant 0 <= j <= |sources|
      invariant forall l :: 0 <= l < j ==> !SourceMatches(sources[l].group, rcv, cache)
    {
      var ok := CheckEssences(sources[j].group, rcv, cache);
      if ok {
        return Some(j);
      }
      j := j + 1;
    }
    return None;
  }
}
