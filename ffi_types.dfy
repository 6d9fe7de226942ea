/**
 * The data that crosses the C boundary of suno_core/src/api.rs: the caller's
 * audio descriptor and result record, the owned chunk handed to the pipeline,
 * the translation it hands back, and the external pipeline's two entry points.
 */
module FfiTypes {
  import opened Wrappers

  /** Rust's fixed-width integers as they appear in the C structs. */
  type U16 = x: int | 0 <= x < 0x1_0000
  type U32 = x: int | 0 <= x < 0x1_0000_0000
  type Usize = x: int | 0 <= x < 0x1_0000_0000_0000_0000

  /** The bit pattern of an `f32`. Samples and confidence are copied, never computed on. */
  type F32 = bv32

  /** `std::time::Duration`. */
  datatype Duration = Duration(secs: nat, nanos: nat)

  /** The owned `AudioChunk` given to the pipeline. */
  datatype AudioChunk = AudioChunk(data: seq<F32>, sampleRate: U32, channels: U16, timestamp: Duration)

  /** The pipeline's `Translation`. */
  datatype Translation = Translation(original: string, translated: string, confidence: F32)

  /** The pipeline's error; the boundary discards it. */
  datatype SunoError = PipelineError(message: string)

  /** The four texts a pipeline is built from. */
  datatype PipelineConfig = PipelineConfig(whisperModelPath: string, gemmaModelPath: string, sourceLang: string, targetLang: string)

  /** An opaque, loaded pipeline: which configuration it came from and which loaded instance it is. */
  datatype Pipeline = Pipeline(config: PipelineConfig, instance: nat)

  /** `TranslationPipeline::new`, external to this model. */
  type Construct = PipelineConfig -> Result<Pipeline, SunoError>

  /** `TranslationPipeline::process_audio_sync`, external to this model. */
  type Infer = (Pipeline, AudioChunk) -> Result<Translation, SunoError>

  /** The text of a C string: it ends at its first NUL, so it holds none. */
  type CText = s: string | NUL !in s

  /** A non-null, NUL-terminated C string argument: its bytes are UTF-8 or they are not. */
  datatype CStrArg = Utf8(text: CText) | NotUtf8

  /** The four C-string arguments of `suno_init`. */
  datatype InitArgs = InitArgs(whisperModelPath: CStrArg, gemmaModelPath: CStrArg, sourceLang: CStrArg, targetLang: CStrArg)
  {
    /** Every `to_str()` succeeds, so no `unwrap` panics. */
    predicate AllUtf8() {
      whisperModelPath.Utf8? && gemmaModelPath.Utf8? && sourceLang.Utf8? && targetLang.Utf8?
    }

    function Config(): PipelineConfig
      requires AllUtf8()
    {
      PipelineConfig(whisperModelPath.text, gemmaModelPath.text, sourceLang.text, targetLang.text)
    }
  }

  /** A `*mut c_char` handed out to the caller: null, or the address of a live C string. */
  datatype CharPtr = Null | Ptr(addr: nat)

  /** The NUL byte that `CString::new` refuses inside a string. */
  const NUL: char := '\0'

  /**
   * What `*const FFIAudioChunk` shows at the moment of the call: the struct's
   * fields, and the caller's memory that `data` points to.
   */
  datatype ChunkView = ChunkView(samples: seq<F32>, length: Usize, sampleRate: U32, channels: U16)
  {
    /** `slice::from_raw_parts(data, length)` stays inside the caller's buffer. */
    predicate Readable() {
      length <= |samples|
    }
  }

  /**
   * The copy into an owned chunk: exactly `length` samples, equal to the
   * caller's in order, with the caller's rate and channel count, timestamp zero.
   */
  function ToOwned(v: ChunkView): (c: AudioChunk)
    requires v.Readable()
    ensures |c.data| == v.length
    ensures forall i :: 0 <= i < v.length ==> c.data[i] == v.samples[i]
    ensures c.sampleRate == v.sampleRate && c.channels == v.channels
    ensures c.timestamp == Duration(0, 0)
  {
    AudioChunk(v.samples[..v.length], v.sampleRate, v.channels, Duration(0, 0))
  }

  /** The caller-owned `FFIAudioChunk` struct. */
  class FFIAudioChunk {
    var data: array<F32>
    var length: Usize
    var sampleRate: U32
    var channels: U16

    constructor (data: array<F32>, length: Usize, sampleRate: U32, channels: U16)
      ensures this.data == data && this.length == length
      ensures this.sampleRate == sampleRate && this.channels == channels
    {
      this.data := data;
      this.length := length;
      this.sampleRate := sampleRate;
      this.channels := channels;
    }

    function View(): ChunkView
      reads this, data
    {
      ChunkView(data[..], length, sampleRate, channels)
    }
  }

  /** What a nullable `*const FFIAudioChunk` shows. */
  function ViewOf(audio: FFIAudioChunk?): Option<ChunkView>
    reads if audio == null then {} else {audio, audio.data}
  {
    if audio == null then None else Some(audio.View())
  }

  /** The caller-owned `FFITranslation` result record. */
  class FFITranslation {
    var original: CharPtr
    var translated: CharPtr
    var confidence: F32

    constructor (original: CharPtr, translated: CharPtr, confidence: F32)
      ensures this.original == original && this.translated == translated && this.confidence == confidence
    {
      this.original := original;
      this.translated := translated;
      this.confidence := confidence;
    }
  }
}
