/**
 * The C-callable entry points of suno_core/src/api.rs as methods on the
 * process-wide boundary object, each proved against its step in BoundaryModel.
 */
module Api {
  import opened Wrappers
  import opened FfiTypes
  import opened BoundaryModel

  /**
   * The global `PIPELINE` slot together with the C strings released to the
   * caller and not yet taken back.
   */
  class Boundary {
    var slot: Option<Pipeline>
    var strings: map<nat, string>
    var nextAddr: nat

    /** The boundary's state as a value. */
    function Model(): State
      reads this
    {
      State(slot, strings, nextAddr)
    }

    ghost predicate Valid()
      reads this
    {
      BoundaryModel.Valid(Model())
    }

    /** `static mut PIPELINE = None` at process start. */
    constructor ()
      ensures Model() == Start && Valid()
    {
      slot := None;
      strings := map[];
      nextAddr := 0;
    }

    /** `suno_init`. */
    method Init(whisperModelPath: CStrArg, gemmaModelPath: CStrArg, sourceLang: CStrArg, targetLang: CStrArg,
                construct: Construct) returns (ret: Ret)
      requires Valid()
      modifies this
      ensures var r := InitStep(old(Model()), InitArgs(whisperModelPath, gemmaModelPath, sourceLang, targetLang), construct);
              ret == r.ret && Model() == r.post
      ensures Valid()
    {
      if whisperModelPath.NotUtf8? || gemmaModelPath.NotUtf8? || sourceLang.NotUtf8? || targetLang.NotUtf8? {
        return Abort;
      }
      var config := PipelineConfig(whisperModelPath.text, gemmaModelPath.text, sourceLang.text, targetLang.text);
      match construct(config) {
        case Success(pipeline) =>
          slot := Some(pipeline);
          ret := Status(0);
        case Failure(_) =>
          ret := Status(-1);
      }
    }

    /** `CString::into_raw`: the string moves to a fresh address the caller now owns. */
    method IntoRaw(text: string) returns (ptr: CharPtr)
      requires Valid()
      modifies this
      ensures ptr == Ptr(old(nextAddr)) && old(nextAddr) !in old(strings)
      ensures strings == old(strings)[old(nextAddr) := text] && nextAddr == old(nextAddr) + 1
      ensures slot == old(slot)
      ensures Valid()
    {
      ptr := Ptr(nextAddr);
      strings := strings[nextAddr := text];
      nextAddr := nextAddr + 1;
    }

    /** `suno_process_audio`. */
    method Process(audio: FFIAudioChunk?, result: FFITranslation?, infer: Infer) returns (ret: Ret)
      requires Valid()
      requires ChunkReadable(Model(), ViewOf(audio))
      requires ProcessStep(Model(), ViewOf(audio), infer).write.Some? ==> result != null
      modifies this, result
      ensures var r := ProcessStep(old(Model()), ViewOf(audio), infer);
              && ret == r.ret && Model() == r.post
              && (r.write.Some? ==>
                    && result.original == Ptr(r.write.value.original)
                    && result.translated == Ptr(r.write.value.translated)
                    && result.confidence == r.write.value.confidence)
              && (r.write.None? && result != null ==> unchanged(result))
      ensures Valid()
    {
      if slot.None? {
        return Status(-1);
      }
      var pipeline := slot.value;
      var chunk := AudioChunk(audio.data[..audio.length], audio.sampleRate, audio.channels, Duration(0, 0));
      assert chunk == ToOwned(audio.View());
      var outcome := infer(pipeline, chunk);
      if outcome.Failure? {
        return Status(-1);
      }
      var translation := outcome.value;
      if NUL in translation.original {
        return Abort;
      }
      if NUL in translation.translated {
        return Abort;
      }
      var original := IntoRaw(translation.original);
      var translated := IntoRaw(translation.translated);
      result.original := original;
      result.translated := translated;
      result.confidence := translation.confidence;
      ret := Status(0);
    }

    /** `suno_free_string`. */
    method FreeString(ptr: CharPtr)
      requires Valid()
      requires Freeable(Model(), ptr)
      modifies this
      ensures Model() == FreeStep(old(Model()), ptr)
      ensures Valid()
    {
      if ptr.Ptr? {
        strings := strings - {ptr.addr};
      }
    }

    /** `suno_cleanup`. */
    method Cleanup()
      requires Valid()
      modifies this
      ensures Model() == CleanupStep(old(Model()))
      ensures Valid()
    {
      slot := None;
    }
  }

  /**
   * A caller's session: init, translate one chunk, release both strings,
   * clean up, and try again. The second process call finds the slot empty.
   * A panic ends the session: after an abort no second call is made, and
   * `second` is None.
   */
  method Session(construct: Construct, infer: Infer, args: InitArgs, audio: FFIAudioChunk)
    returns (init: Ret, first: Ret, second: Option<Ret>)
    requires args.AllUtf8() && construct(args.Config()).Success?
    requires audio.length <= audio.data.Length
    ensures init == Status(0)
    ensures var out := infer(construct(args.Config()).value, ToOwned(audio.View()));
            && (first == Status(-1) <==> out.Failure?)
            && (first == Status(0) <==> out.Success? && NUL !in out.value.original && NUL !in out.value.translated)
    ensures first.Abort? <==> second.None?
    ensures !first.Abort? ==> second == Some(Status(-1))
  {
    var boundary := new Boundary();
    init := boundary.Init(args.whisperModelPath, args.gemmaModelPath, args.sourceLang, args.targetLang, construct);
    var result := new FFITranslation(Null, Null, 0);
    first := boundary.Process(audio, result, infer);
    if first.Abort? {
      return init, first, None;
    }
    if first == Status(0) {
      boundary.FreeString(result.original);
      boundary.FreeString(result.translated);
    }
    boundary.Cleanup();
    var last := boundary.Process(null, null, infer);
    second := Some(last);
  }
}
