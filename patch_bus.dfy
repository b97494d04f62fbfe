/** Per-essence patch orchestration (services/patch_bus.py): a logical take
    becomes up to three device calls, one per essence both groups define,
    each of which succeeds or fails on its own. */
module PatchBus {
  import opened Wrappers
  import opened Logical

  /** What a device call (`change_source`, `disconnect_receiver`) gives back: the
      `status` and `message` fields of its record (None when absent), or the text
      of the exception it raised. */
  datatype Reply = Reply(status: Option<string>, message: Option<string>) | Raised(error: string)

  /** `change_source` for a receiver ID and a sender ID, as an oracle. */
  type Device = (string, string) -> Reply

  /** The record kept for one essence. */
  datatype EssenceResult =
    | Patched(status: Option<string>, sender: string, receiver: string, message: string)
    | Released(status: Option<string>, receiver: string, message: string)
    | Skipped(reason: string)
  {
    /** The record's `status` field. */
    function Status(): Option<string> {
      match this
      case Patched(s, _, _, _) => s
      case Released(s, _, _) => s
      case Skipped(_) => Some("skipped")
    }
  }

  const MissingReason := "missing sender or receiver"

  /** `patch_one`: the device's status and message (empty when absent), or status
      `error` with the exception's text. */
  function PatchOne(sender: string, receiver: string, reply: Reply): EssenceResult {
    match reply
    case Reply(status, message) => Patched(status, sender, receiver, message.GetOr(""))
    case Raised(error) => Patched(Some("error"), sender, receiver, error)
  }

  /** An essence is attempted only when both groups give it a non-empty ID. */
  predicate Attempted(src: Group, dst: Group, e: Essence) {
    Present(src.Get(e)) && Present(dst.Get(e))
  }

  /** The outcome for one essence of a take from `src` to `dst`. */
  function EssenceOutcome(src: Group, dst: Group, e: Essence, device: Device): EssenceResult {
    if Attempted(src, dst, e) then
      var s := src.Get(e).value;
      var d := dst.Get(e).value;
      PatchOne(s, d, device(d, s))
    else Skipped(MissingReason)
  }

  /** The result record of a take: one entry per essence. */
  function PatchAll(src: Group, dst: Group, device: Device): map<Essence, EssenceResult> {
    map e | e in Essences :: EssenceOutcome(src, dst, e, device)
  }

  /** Every essence has an entry; it is skipped exactly when one side lacks it, and
      otherwise carries both IDs and the device's status, or `error` if the call raised. */
  lemma {:induction false} PatchAllShape(src: Group, dst: Group, device: Device, e: Essence)
    ensures e in PatchAll(src, dst, device)
    ensures PatchAll(src, dst, device)[e].Skipped? <==> !Attempted(src, dst, e)
    ensures PatchAll(src, dst, device)[e].Skipped? ==> PatchAll(src, dst, device)[e].reason == MissingReason
    ensures Attempted(src, dst, e) ==>
      var r := PatchAll(src, dst, device)[e];
      var reply := device(dst.Get(e).value, src.Get(e).value);
      && r.sender == src.Get(e).value && r.receiver == dst.Get(e).value
      && (reply.Raised? ==> r.status == Some("error") && r.message == reply.error)
      && (reply.Reply? ==> r.status == reply.status && r.message == reply.message.GetOr(""))
  {
    EssencesComplete(e);
  }

  /** Essences fail independently: an essence's entry depends only on the device's
      answer for that essence's own receiver and sender. */
  lemma {:induction false} PatchAllIndependent(src: Group, dst: Group, d1: Device, d2: Device, e: Essence)
    requires Attempted(src, dst, e) ==> d1(dst.Get(e).value, src.Get(e).value) == d2(dst.Get(e).value, src.Get(e).value)
    ensures PatchAll(src, dst, d1)[e] == PatchAll(src, dst, d2)[e]
  {
    EssencesComplete(e);
  }

  /** Whether `emit_patch` raises: `get_logical_pair` found no source or no receiver,
      so the first `.get` on None fails before any device call. */
  predicate EmitPatchRaises(reg: Logicals, senderId: IdArg, receiverId: IdArg) {
    var pair := GetLogicalPair(reg, senderId, receiverId);
    pair.0.None? || pair.1.None?
  }

  /** `emit_patch`: queue a device call for every essence both groups define, record the
      others as skipped, then gather the calls' results. None stands for the exception
      raised when either logical ID is unknown. */
  method EmitPatch(reg: Logicals, senderId: IdArg, receiverId: IdArg, device: Device)
    returns (r: Option<map<Essence, EssenceResult>>)
    ensures r.None? <==> EmitPatchRaises(reg, senderId, receiverId)
    ensures r.Some? ==>
      var pair := GetLogicalPair(reg, senderId, receiverId);
      r.value == PatchAll(pair.0.value, pair.1.value, device)
  {
    var pair := GetLogicalPair(reg, senderId, receiverId);
    if pair.0.None? || pair.1.None? {
      return None;
    }
    var result := PatchPair(pair.0.value, pair.1.value, device);
    r := Some(result);
  }

  /** The body of `emit_patch` once both groups are known: skipped essences are
      recorded at once, the others are queued and their results gathered after. */
  method PatchPair(src: Group, dst: Group, device: Device) returns (result: map<Essence, EssenceResult>)
    ensures result == PatchAll(src, dst, device)
  {
    result := map[];
    var tasks: seq<(Essence, string, string)> := [];
    var i := 0;
    while i < |Essences|
      invariant 0 <= i <= |Essences|
      invariant result.Keys == SkippedIn(src, dst, Essences[..i])
      invariant forall e :: e in result ==> result[e] == EssenceOutcome(src, dst, e, device)
      invariant forall k :: 0 <= k < |tasks| ==> IsTask(src, dst, tasks[k])
      invariant Queued(tasks) == AttemptedIn(src, dst, Essences[..i])
    {
      var e := Essences[i];
      var s := src.Get(e);
      var d := dst.Get(e);
      assert Essences[..i + 1] == Essences[..i] + [e];
      SplitByAttempt(src, dst, Essences[..i], e);
      if Present(s) && Present(d) {
        QueuedAppend(tasks, (e, s.value, d.value));
        tasks := tasks + [(e, s.value, d.value)];
      } else {
        result := result[e := Skipped(MissingReason)];
      }
      i := i + 1;
    }
    assert Essences[..i] == Essences;
    ghost var skipped := result.Keys;
    var j := 0;
    while j < |tasks|
      invariant 0 <= j <= |tasks|
      invariant result.Keys == skipped + Queued(tasks[..j])
      invariant forall e :: e in result ==> result[e] == EssenceOutcome(src, dst, e, device)
    {
      var (e, s, d) := tasks[j];
      TaskOutcome(src, dst, tasks[j], device);
      assert tasks[..j + 1] == tasks[..j] + [tasks[j]];
      QueuedAppend(tasks[..j], tasks[j]);
      result := result[e := PatchOne(s, d, device(d, s))];
      j := j + 1;
    }
    assert tasks[..j] == tasks;
    forall e
      ensures e in result
    {
      EssencesComplete(e);
    }
    assert result == PatchAll(src, dst, device);
  }

  /** A queued call: an attempted essence with the source's and the destination's IDs. */
  predicate IsTask(src: Group, dst: Group, t: (Essence, string, string)) {
    Attempted(src, dst, t.0) && t.1 == src.Get(t.0).value && t.2 == dst.Get(t.0).value
  }

  /** Running a queued call gives the essence's outcome. */
  lemma {:induction false} TaskOutcome(src: Group, dst: Group, t: (Essence, string, string), device: Device)
    requires IsTask(src, dst, t)
    ensures EssenceOutcome(src, dst, t.0, device) == PatchOne(t.1, t.2, device(t.2, t.1))
  {
  }

  /** The essences of a list of queued calls. */
  ghost function Queued(tasks: seq<(Essence, string, string)>): set<Essence> {
    set t | t in tasks :: t.0
  }

  /** The essences of `es` that are attempted, and those that are skipped. */
  ghost function AttemptedIn(src: Group, dst: Group, es: seq<Essence>): set<Essence> {
    set e | e in es && Attempted(src, dst, e)
  }

  ghost function SkippedIn(src: Group, dst: Group, es: seq<Essence>): set<Essence> {
    set e | e in es && !Attempted(src, dst, e)
  }

  lemma {:induction false} QueuedAppend(tasks: seq<(Essence, string, string)>, t: (Essence, string, string))
    ensures Queued(tasks + [t]) == Queued(tasks) + {t.0}
  {
    assert forall u :: u in tasks + [t] <==> u in tasks || u == t;
  }

  lemma {:induction false} SplitByAttempt(src: Group, dst: Group, es: seq<Essence>, e: Essence)
    ensures Attempted(src, dst, e) ==>
      AttemptedIn(src, dst, es + [e]) == AttemptedIn(src, dst, es) + {e} &&
      SkippedIn(src, dst, es + [e]) == SkippedIn(src, dst, es)
    ensures !Attempted(src, dst, e) ==>
      AttemptedIn(src, dst, es + [e]) == AttemptedIn(src, dst, es) &&
      SkippedIn(src, dst, es + [e]) == SkippedIn(src, dst, es) + {e}
  {
    assert forall x :: x in es + [e] <==> x in es || x == e;
  }
}
