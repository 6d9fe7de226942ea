/**
 * The four entry points of suno_core/src/api.rs as a state machine over the
 * process-wide pipeline slot and the C strings handed out to the caller, and
 * what holds of any sequence of calls.
 */
module BoundaryModel {
  import opened Wrappers
  import opened FfiTypes

  /**
   * Everything the boundary owns: the global `PIPELINE` slot, and the heap of
   * C strings it has released with `into_raw` and not yet taken back with
   * `from_raw`, keyed by address. `nextAddr` is the allocator's next address.
   */
  datatype State = State(slot: Option<Pipeline>, strings: map<nat, string>, nextAddr: nat)

  /** The slot as it is at process start. */
  const Start: State := State(None, map[], 0)

  /** Every live string sits below the allocator's next address, so new ones are fresh. */
  ghost predicate Valid(s: State) {
    forall a :: a in s.strings ==> a < s.nextAddr
  }

  /** How an entry point ends: it returns an `i32` status, or it panics across `extern "C"` and aborts. */
  datatype Ret = Status(code: int) | Abort

  /** The three fields `suno_process_audio` writes through `*result`. */
  datatype Written = Written(original: nat, translated: nat, confidence: F32)

  /** The status, the boundary's new state and what, if anything, was written to the result record. */
  datatype Reply = Reply(ret: Ret, post: State, write: Option<Written>)

  /**
   * `suno_init`: panics unless all four arguments are UTF-8; otherwise builds a
   * pipeline and installs it on success (0), or keeps the previous slot (-1).
   */
  function InitStep(s: State, args: InitArgs, construct: Construct): (r: Reply)
    ensures r.write == None
    ensures r.ret.Abort? <==> !args.AllUtf8()
    ensures r.ret == Status(0) <==> args.AllUtf8() && construct(args.Config()).Success?
    ensures r.ret == Status(-1) <==> args.AllUtf8() && construct(args.Config()).Failure?
    ensures r.ret == Status(0) ==> r.post == s.(slot := Some(construct(args.Config()).value))
    ensures r.ret != Status(0) ==> r.post == s
  {
    if !args.AllUtf8() then Reply(Abort, s, None)
    else
      match construct(args.Config())
      case Success(p) => Reply(Status(0), s.(slot := Some(p)), None)
      case Failure(_) => Reply(Status(-1), s, None)
  }

  /** What the source demands of a `suno_process_audio` caller: once the slot is ready, a readable chunk. */
  predicate ChunkReadable(s: State, view: Option<ChunkView>) {
    s.slot.Some? ==> view.Some? && view.value.Readable()
  }

  /**
   * `suno_process_audio`: -1 on an empty slot before the chunk is looked at;
   * otherwise the current pipeline runs on a copy of the chunk, and on success
   * two fresh strings are allocated and written with the confidence (0), on
   * failure nothing is written (-1). A NUL inside either text panics.
   */
  function ProcessStep(s: State, view: Option<ChunkView>, infer: Infer): (r: Reply)
    requires ChunkReadable(s, view)
    ensures s.slot.None? ==> r == Reply(Status(-1), s, None)
    ensures r.post.slot == s.slot
    ensures r.write.Some? <==> r.ret == Status(0)
    ensures s.slot.Some? ==>
      var out := infer(s.slot.value, ToOwned(view.value));
      r.ret == Status(0) <==> out.Success? && NUL !in out.value.original && NUL !in out.value.translated
    ensures r.ret != Status(0) ==> r.post == s
    ensures s.slot.Some? ==>
      var out := infer(s.slot.value, ToOwned(view.value));
      && (r.ret == Status(-1) <==> out.Failure?)
      && (r.ret.Abort? <==> out.Success? && (NUL in out.value.original || NUL in out.value.translated))
      && (r.ret == Status(0) ==>
            var w := r.write.value;
            && w.original != w.translated
            && r.post.strings == s.strings[w.original := out.value.original][w.translated := out.value.translated]
            && w.confidence == out.value.confidence
            && (Valid(s) ==> w.original !in s.strings && w.translated !in s.strings && Valid(r.post)))
  {
    match s.slot
    case None => Reply(Status(-1), s, None)
    case Some(pipeline) =>
      match infer(pipeline, ToOwned(view.value))
      case Failure(_) => Reply(Status(-1), s, None)
      case Success(t) =>
        if NUL in t.original || NUL in t.translated then Reply(Abort, s, None)
        else
          var a, b := s.nextAddr, s.nextAddr + 1;
          var post := s.(strings := s.strings[a := t.original][b := t.translated], nextAddr := s.nextAddr + 2);
          Reply(Status(0), post, Some(Written(a, b, t.confidence)))
  }

  /** What the source demands of a `suno_free_string` caller: null, or a string it still owns. */
  predicate Freeable(s: State, ptr: CharPtr) {
    ptr.Ptr? ==> ptr.addr in s.strings
  }

  /** `suno_free_string`: null changes nothing; otherwise exactly that string is released. */
  function FreeStep(s: State, ptr: CharPtr): (t: State)
    requires Freeable(s, ptr)
    ensures t.slot == s.slot && t.nextAddr == s.nextAddr
    ensures ptr.Null? ==> t == s
    ensures ptr.Ptr? ==> ptr.addr !in t.strings && t.strings.Keys == s.strings.Keys - {ptr.addr}
    ensures forall a :: a in t.strings ==> a in s.strings && t.strings[a] == s.strings[a]
    ensures Valid(s) ==> Valid(t)
  {
    if ptr.Null? then s else s.(strings := s.strings - {ptr.addr})
  }

  /** `suno_cleanup`: the slot is empty afterwards, whatever it was; the strings are untouched. */
  function CleanupStep(s: State): (t: State)
    ensures t.slot.None?
    ensures t.strings == s.strings && t.nextAddr == s.nextAddr
    ensures Valid(s) ==> Valid(t)
  {
    s.(slot := None)
  }

  // ---------------------------------------------------------------------------
  // Sequences of calls

  /** One call into the boundary, with the oracle that answers it. */
  datatype Call =
    | InitCall(args: InitArgs, construct: Construct)
    | ProcessCall(view: Option<ChunkView>, infer: Infer)
    | FreeCall(ptr: CharPtr)
    | CleanupCall

  /** The call keeps the contract the source demands of its caller. */
  predicate Permitted(s: State, c: Call) {
    match c
    case ProcessCall(view, _) => ChunkReadable(s, view)
    case FreeCall(ptr) => Freeable(s, ptr)
    case _ => true
  }

  /** The state after one call, or None when the call aborts the process. */
  function Step(s: State, c: Call): Option<State>
    requires Permitted(s, c)
  {
    match c
    case InitCall(args, construct) =>
      var r := InitStep(s, args, construct);
      if r.ret.Abort? then None else Some(r.post)
    case ProcessCall(view, infer) =>
      var r := ProcessStep(s, view, infer);
      if r.ret.Abort? then None else Some(r.post)
    case FreeCall(ptr) => Some(FreeStep(s, ptr))
    case CleanupCall => Some(CleanupStep(s))
  }

  /** Every call of the sequence, up to an abort, keeps its caller contract. */
  ghost predicate Permits(s: State, calls: seq<Call>)
    decreases |calls|
  {
    calls == [] ||
    (Permitted(s, calls[0]) &&
     match Step(s, calls[0])
     case None => true
     case Some(t) => Permits(t, calls[1..]))
  }

  /** The state after the calls in order, or None when one of them aborts. */
  function Run(s: State, calls: seq<Call>): Option<State>
    requires Permits(s, calls)
    decreases |calls|
  {
    if calls == [] then Some(s)
    else
      match Step(s, calls[0])
      case None => None
      case Some(t) => Run(t, calls[1..])
  }

  /** An init call that installs a pipeline. */
  predicate InitSucceeds(c: Call) {
    c.InitCall? && c.args.AllUtf8() && c.construct(c.args.Config()).Success?
  }

  /** A call that assigns the slot: a succeeding init, or a cleanup. */
  predicate WritesSlot(c: Call) {
    InitSucceeds(c) || c.CleanupCall?
  }

  /** A call that releases the string at `a`. */
  predicate Frees(c: Call, a: nat) {
    c.FreeCall? && c.ptr == Ptr(a)
  }

  /**
   * Reference definition of the slot after a sequence of calls: the last
   * write wins, read from the end of the sequence.
   */
  function SlotAfter(slot: Option<Pipeline>, calls: seq<Call>): Option<Pipeline>
    decreases |calls|
  {
    if calls == [] then slot
    else
      var last := calls[|calls| - 1];
      if InitSucceeds(last) then Some(last.construct(last.args.Config()).value)
      else if last.CleanupCall? then None
      else SlotAfter(slot, calls[..|calls| - 1])
  }

  lemma {:induction false} SlotAfterAppend(slot: Option<Pipeline>, a: seq<Call>, b: seq<Call>)
    ensures SlotAfter(SlotAfter(slot, a), b) == SlotAfter(slot, a + b)
    decreases |b|
  {
    if b == [] {
      assert a + b == a;
    } else {
      var n := |b| - 1;
      assert (a + b)[..|a + b| - 1] == a + b[..n];
      assert (a + b)[|a + b| - 1] == b[n];
      SlotAfterAppend(slot, a, b[..n]);
    }
  }

  /** The slot after a run is the one the last write put there. */
  lemma {:induction false} RunSlot(s: State, calls: seq<Call>, t: State)
    requires Permits(s, calls)
    requires Run(s, calls) == Some(t)
    ensures t.slot == SlotAfter(s.slot, calls)
    decreases |calls|
  {
    if calls != [] {
      var s1 := Step(s, calls[0]).value;
      RunSlot(s1, calls[1..], t);
      assert SlotAfter(s.slot, [calls[0]]) == s1.slot;
      SlotAfterAppend(s.slot, [calls[0]], calls[1..]);
      assert [calls[0]] + calls[1..] == calls;
    }
  }

  /** Calls that do not write the slot leave it as it was. */
  lemma {:induction false} SlotAfterQuiet(slot: Option<Pipeline>, calls: seq<Call>)
    requires forall i :: 0 <= i < |calls| ==> !WritesSlot(calls[i])
    ensures SlotAfter(slot, calls) == slot
    decreases |calls|
  {
    if calls != [] {
      SlotAfterQuiet(slot, calls[..|calls| - 1]);
    }
  }

  /** Without a succeeding init, the slot can only stay or become empty. */
  lemma {:induction false} SlotAfterNoInit(slot: Option<Pipeline>, calls: seq<Call>)
    requires forall i :: 0 <= i < |calls| ==> !InitSucceeds(calls[i])
    ensures SlotAfter(slot, calls) == slot || SlotAfter(slot, calls) == None
    decreases |calls|
  {
    if calls != [] {
      SlotAfterNoInit(slot, calls[..|calls| - 1]);
    }
  }

  /**
   * Last init wins: after a succeeding init and any calls that write the
   * slot no more, the slot holds that init's pipeline and every process call
   * runs it on its chunk.
   */
  lemma ProcessUsesLastInit(s: State, before: seq<Call>, init: Call, after: seq<Call>, t: State,
                            view: ChunkView, infer: Infer)
    requires InitSucceeds(init)
    requires forall i :: 0 <= i < |after| ==> !WritesSlot(after[i])
    requires Permits(s, before + [init] + after)
    requires Run(s, before + [init] + after) == Some(t)
    requires view.Readable()
    ensures t.slot == Some(init.construct(init.args.Config()).value)
    ensures var r := ProcessStep(t, Some(view), infer);
            var out := infer(init.construct(init.args.Config()).value, ToOwned(view));
            && (r.ret == Status(-1) <==> out.Failure?)
            && (r.ret == Status(0) <==> out.Success? && NUL !in out.value.original && NUL !in out.value.translated)
            && (r.ret == Status(0) ==>
                  && r.write.value.confidence == out.value.confidence
                  && r.post.strings[r.write.value.original] == out.value.original
                  && r.post.strings[r.write.value.translated] == out.value.translated)
  {
    RunSlot(s, before + [init] + after, t);
    SlotAfterAppend(s.slot, before + [init], after);
    SlotAfterQuiet(SlotAfter(s.slot, before + [init]), after);
  }

  /**
   * After a cleanup, every process call returns -1 and writes nothing, until a
   * later init succeeds.
   */
  lemma ProcessFailsAfterCleanup(s: State, calls: seq<Call>, t: State, view: Option<ChunkView>, infer: Infer)
    requires forall i :: 0 <= i < |calls| ==> !InitSucceeds(calls[i])
    requires Permits(s, [CleanupCall] + calls)
    requires Run(s, [CleanupCall] + calls) == Some(t)
    ensures t.slot.None?
    ensures ProcessStep(t, view, infer) == Reply(Status(-1), t, None)
  {
    RunSlot(s, [CleanupCall] + calls, t);
    SlotAfterAppend(s.slot, [CleanupCall], calls);
    SlotAfterNoInit(None, calls);
  }

  /** Repeated cleanups collapse to one: cleanup is idempotent and never fails. */
  lemma {:induction false} CleanupsCollapse(s: State, n: nat)
    requires n >= 1
    ensures Permits(s, seq(n, _ => CleanupCall))
    ensures Run(s, seq(n, _ => CleanupCall)) == Some(CleanupStep(s))
    decreases n
  {
    var calls := seq(n, _ => CleanupCall);
    if n > 1 {
      CleanupsCollapse(CleanupStep(s), n - 1);
      assert calls[1..] == seq(n - 1, _ => CleanupCall);
      assert CleanupStep(CleanupStep(s)) == CleanupStep(s);
    } else {
      assert calls[1..] == [];
    }
  }

  /** Any run keeps every live string below the allocator's next address. */
  lemma {:induction false} RunKeepsValid(s: State, calls: seq<Call>, t: State)
    requires Valid(s)
    requires Permits(s, calls)
    requires Run(s, calls) == Some(t)
    ensures Valid(t)
    decreases |calls|
  {
    if calls != [] {
      RunKeepsValid(Step(s, calls[0]).value, calls[1..], t);
    }
  }

  /**
   * A string handed to the caller stays live, with the same contents, through
   * any run that does not free it: no other call reuses or frees its address.
   */
  lemma {:induction false} LiveUntilFreed(s: State, calls: seq<Call>, t: State, a: nat)
    requires Valid(s)
    requires a in s.strings
    requires forall i :: 0 <= i < |calls| ==> !Frees(calls[i], a)
    requires Permits(s, calls)
    requires Run(s, calls) == Some(t)
    ensures a in t.strings && t.strings[a] == s.strings[a]
    decreases |calls|
  {
    if calls != [] {
      var s1 := Step(s, calls[0]).value;
      assert !Frees(calls[0], a);
      assert a in s1.strings && s1.strings[a] == s.strings[a];
      LiveUntilFreed(s1, calls[1..], t, a);
    }
  }

  /** A string is released once: freeing it a second time breaks the caller contract. */
  lemma DoubleFreeForbidden(s: State, a: nat)
    requires a in s.strings
    ensures Permits(s, [FreeCall(Ptr(a))])
    ensures !Permits(s, [FreeCall(Ptr(a)), FreeCall(Ptr(a))])
  {
    var calls := [FreeCall(Ptr(a)), FreeCall(Ptr(a))];
    assert calls[1..] == [FreeCall(Ptr(a))];
  }
}
