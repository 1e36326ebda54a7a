/** The stack marshalling of src/audio_worklet.js for 32-bit memory: audio inputs, parameters
    and output descriptors are laid out in one block at the top of the worklet's stack, and
    outputs are read back through views placed there beforehand.  Memory is a sequence of
    32-bit words; a float sample is its bit pattern and pointers are byte addresses. */
module AudioWorklet {

  type Word = nat

  // One Float32Array
  type Samples = seq<Word>

  const SAMPLE_FRAME := 12 // sizeof(AudioSampleFrame): numberOfChannels, samplesPerChannel, data
  const PARAM_FRAME := 8   // sizeof(AudioParamFrame): length, data
  const STACK_ALIGN := 16
  const MAX_VIEWS := 64

  // A store to HEAPU32 keeps 32 bits.
  function U32(x: nat): Word {
    x % 0x1_0000_0000
  }

  // ---- Writing words ----

  // Memory w with data stored from word at on
  function Put(w: seq<Word>, at: nat, data: seq<Word>): (r: seq<Word>)
    requires at + |data| <= |w|
    ensures |r| == |w|
  {
    if data == [] then w else Put(w, at, data[..|data| - 1])[at + |data| - 1 := data[|data| - 1]]
  }

  lemma {:induction false} PutReads(w: seq<Word>, at: nat, data: seq<Word>, k: nat)
    requires at + |data| <= |w| && k < |w|
    ensures Put(w, at, data)[k] == if at <= k < at + |data| then data[k - at] else w[k]
  {
    if data != [] {
      PutReads(w, at, data[..|data| - 1], k);
    }
  }

  lemma {:induction false} PutAppend(w: seq<Word>, at: nat, a: seq<Word>, b: seq<Word>)
    requires at + |a| + |b| <= |w|
    ensures Put(Put(w, at, a), at + |a|, b) == Put(w, at, a + b)
  {
    if b == [] {
      assert a + b == a;
    } else {
      PutAppend(w, at, a, b[..|b| - 1]);
      assert (a + b)[..|a + b| - 1] == a + b[..|b| - 1];
    }
  }

  lemma PutAll(w: seq<Word>, data: seq<Word>)
    requires |data| == |w|
    ensures Put(w, 0, data) == data
  {
    forall k | 0 <= k < |w| ensures Put(w, 0, data)[k] == data[k] {
      PutReads(w, 0, data, k);
    }
  }

  lemma PutCommute(w: seq<Word>, i: nat, a: seq<Word>, j: nat, b: seq<Word>)
    requires i + |a| <= j && j + |b| <= |w|
    ensures Put(Put(w, i, a), j, b) == Put(Put(w, j, b), i, a)
  {
    var l, r := Put(Put(w, i, a), j, b), Put(Put(w, j, b), i, a);
    forall k | 0 <= k < |w| ensures l[k] == r[k] {
      PutReads(Put(w, i, a), j, b, k);
      PutReads(w, i, a, k);
      PutReads(Put(w, j, b), i, a, k);
      PutReads(w, j, b, k);
    }
  }

  // Sequence w holds data from position at on.
  ghost predicate HasAt(w: seq<Word>, at: nat, data: seq<Word>) {
    at + |data| <= |w| && forall k | 0 <= k < |data| :: w[at + k] == data[k]
  }

  // ---- The layout ----

  function Concat(ss: seq<Samples>): Samples {
    if ss == [] then [] else Concat(ss[..|ss| - 1]) + ss[|ss| - 1]
  }

  // An audio input: its channels
  type Input = seq<Samples>

  // The sample data of all inputs, channel after channel
  function Flat(inputs: seq<Input>): Samples {
    if inputs == [] then [] else Flat(inputs[..|inputs| - 1]) + Concat(inputs[|inputs| - 1])
  }

  // The AudioSampleFrame records of inputs whose data starts at address data
  function InputFrames(inputs: seq<Input>, samples: nat, data: nat): seq<Word> {
    if inputs == [] then []
    else
      var front := inputs[..|inputs| - 1];
      InputFrames(front, samples, data) +
      [U32(|inputs[|inputs| - 1]|), U32(samples), U32(data + 4 * |Flat(front)|)]
  }

  // The AudioParamFrame records
  function ParamFrames(params: seq<Samples>, data: nat): seq<Word> {
    if params == [] then []
    else
      var front := params[..|params| - 1];
      ParamFrames(front, data) + [U32(|params[|params| - 1]|), U32(data + 4 * |Concat(front)|)]
  }

  function Sum(ns: seq<nat>): nat {
    if ns == [] then 0 else Sum(ns[..|ns| - 1]) + ns[|ns| - 1]
  }

  // The words that outputs with these numbers of channels take
  function Room(outs: seq<nat>, samples: nat): nat {
    if outs == [] then 0 else Room(outs[..|outs| - 1], samples) + samples * outs[|outs| - 1]
  }

  // The AudioSampleFrame records of outputs with these numbers of channels
  function OutputFrames(outs: seq<nat>, samples: nat, data: nat): seq<Word> {
    if outs == [] then []
    else
      var front := outs[..|outs| - 1];
      OutputFrames(front, samples, data) +
      [U32(outs[|outs| - 1]), U32(samples), U32(data + 4 * Room(front, samples))]
  }

  lemma {:induction false} InputFramesLength(inputs: seq<Input>, samples: nat, data: nat)
    ensures |InputFrames(inputs, samples, data)| == 3 * |inputs|
  {
    if inputs != [] {
      InputFramesLength(inputs[..|inputs| - 1], samples, data);
    }
  }

  lemma {:induction false} ParamFramesLength(params: seq<Samples>, data: nat)
    ensures |ParamFrames(params, data)| == 2 * |params|
  {
    if params != [] {
      ParamFramesLength(params[..|params| - 1], data);
    }
  }

  lemma {:induction false} OutputFramesLength(outs: seq<nat>, samples: nat, data: nat)
    ensures |OutputFrames(outs, samples, data)| == 3 * |outs|
  {
    if outs != [] {
      OutputFramesLength(outs[..|outs| - 1], samples, data);
    }
  }

  lemma FlatNext(inputs: seq<Input>, i: nat)
    requires i < |inputs|
    ensures Flat(inputs[..i + 1]) == Flat(inputs[..i]) + Concat(inputs[i])
  {
    assert inputs[..i + 1][..i] == inputs[..i];
  }

  // Where input i lies in the data of all inputs
  lemma {:induction false} FlatAt(inputs: seq<Input>, i: nat)
    requires i < |inputs|
    ensures HasAt(Flat(inputs), |Flat(inputs[..i])|, Concat(inputs[i]))
  {
    var front := inputs[..|inputs| - 1];
    if i == |front| {
      assert inputs[..i] == front;
    } else {
      FlatAt(front, i);
      assert front[..i] == inputs[..i];
    }
  }

  lemma ConcatNext(ss: seq<Samples>, i: nat)
    requires i < |ss|
    ensures Concat(ss[..i + 1]) == Concat(ss[..i]) + ss[i]
  {
    assert ss[..i + 1][..i] == ss[..i];
  }

  lemma {:induction false} ConcatPrefix(ss: seq<Samples>, i: nat)
    requires i <= |ss|
    ensures |Concat(ss[..i])| <= |Concat(ss)| && Concat(ss)[..|Concat(ss[..i])|] == Concat(ss[..i])
  {
    if i == |ss| {
      assert ss[..i] == ss;
    } else {
      var front := ss[..|ss| - 1];
      ConcatPrefix(front, i);
      assert front[..i] == ss[..i];
    }
  }

  // Where part i of a concatenation lies
  lemma {:induction false} ConcatAt(ss: seq<Samples>, i: nat)
    requires i < |ss|
    ensures HasAt(Concat(ss), |Concat(ss[..i])|, ss[i])
  {
    var front := ss[..|ss| - 1];
    if i == |front| {
      assert ss[..i] == front;
    } else {
      ConcatAt(front, i);
      assert front[..i] == ss[..i];
    }
  }

  // ---- The stack ----

  // (n + 15) & ~15, for n below 2^31 - 15
  function RoundUp(n: nat): (r: nat)
    ensures r % 16 == 0 && n <= r < n + 16
  {
    (n + 15) / 16 * 16
  }

  // emscripten_stack_alloc
  function StackAlloc(sp: nat, n: nat): (r: nat)
    requires n <= sp
    ensures r % 16 == 0 && r <= sp - n < r + 16
  {
    (sp - n) / 16 * 16
  }

  class Memory {
    const words: array<Word>
    var sp: nat

    constructor (words: array<Word>, sp: nat)
      ensures this.words == words && this.sp == sp
    {
      this.words, this.sp := words, sp;
    }

    // HEAPF32.set, or stores of successive words
    method Set(at: nat, data: seq<Word>)
      requires at + |data| <= words.Length
      modifies words
      ensures words[..] == Put(old(words[..]), at, data)
    {
      for k := 0 to |data|
        invariant words[..] == Put(old(words[..]), at, data[..k])
      {
        words[at + k] := data[k];
        assert data[..k + 1][..k] == data[..k];
      }
      assert data[..|data|] == data;
    }

    // Set, told what it does to a layout under construction
    method AppendRecord(at: nat, r: seq<Word>, ghost w: seq<Word>, ghost a: nat, ghost records: seq<Word>,
                        ghost d: nat, ghost samples: seq<Word>)
      requires a + |records| + |r| <= d && d + |samples| <= |w|
      requires at == a + |records| && words[..] == Laid(w, a, records, d, samples)
      modifies words
      ensures words[..] == Laid(w, a, records + r, d, samples)
    {
      LaidRecord(w, a, records, d, samples, r);
      Set(at, r);
    }

    method AppendSamples(at: nat, x: seq<Word>, ghost w: seq<Word>, ghost a: nat, ghost records: seq<Word>,
                         ghost d: nat, ghost samples: seq<Word>)
      requires a + |records| <= d && d + |samples| + |x| <= |w|
      requires at == d + |samples| && words[..] == Laid(w, a, records, d, samples)
      modifies words
      ensures words[..] == Laid(w, a, records, d, samples + x)
    {
      LaidSamples(w, a, records, d, samples, x);
      Set(at, x);
    }
  }

  // Memory w with records laid out at word a and samples at word d
  function Laid(w: seq<Word>, a: nat, records: seq<Word>, d: nat, samples: seq<Word>): seq<Word>
    requires a + |records| <= d && d + |samples| <= |w|
  {
    Put(Put(w, a, records), d, samples)
  }

  lemma LaidNothing(w: seq<Word>, a: nat, d: nat)
    requires a <= d <= |w|
    ensures Laid(w, a, [], d, []) == w
  {
  }

  lemma LaidNoSamples(w: seq<Word>, a: nat, records: seq<Word>, d: nat)
    requires a + |records| <= d <= |w|
    ensures Laid(w, a, records, d, []) == Put(w, a, records)
  {
  }

  lemma NothingYet(inputs: seq<Input>, params: seq<Samples>, outs: seq<nat>, samples: nat, data: nat)
    ensures InputFrames(inputs[..0], samples, data) == [] && Flat(inputs[..0]) == []
    ensures ParamFrames(params[..0], data) == [] && Concat(params[..0]) == []
    ensures OutputFrames(outs[..0], samples, data) == [] && Room(outs[..0], samples) == 0
  {
  }

  // Writing one more record in front of the samples
  lemma LaidRecord(w: seq<Word>, a: nat, records: seq<Word>, d: nat, samples: seq<Word>, r: seq<Word>)
    requires a + |records| + |r| <= d && d + |samples| <= |w|
    ensures Put(Laid(w, a, records, d, samples), a + |records|, r) == Laid(w, a, records + r, d, samples)
  {
    PutCommute(Put(w, a, records), a + |records|, r, d, samples);
    PutAppend(w, a, records, r);
  }

  lemma LaidSamples(w: seq<Word>, a: nat, records: seq<Word>, d: nat, samples: seq<Word>, x: seq<Word>)
    requires a + |records| <= d && d + |samples| + |x| <= |w|
    ensures Put(Laid(w, a, records, d, samples), d + |samples|, x) == Laid(w, a, records, d, samples + x)
  {
    PutAppend(Put(w, a, records), d, samples, x);
  }

  // A Float32Array over the heap: first word and length
  datatype View = View(first: nat, len: nat)

  // The number of views the constructor allocates
  function ViewCount(stackSize: nat, bytesPerChannel: nat): nat
    requires stackSize >= STACK_ALIGN && bytesPerChannel > 0
  {
    var n := (stackSize - STACK_ALIGN) / bytesPerChannel;
    if n < MAX_VIEWS then n else MAX_VIEWS
  }

  lemma NonNegative(a: nat, b: nat)
    ensures a * b >= 0
  {
  }

  // View n out of count, allocated with the stack pointer at sp
  function ViewAt(sp: nat, count: nat, samples: nat, n: nat): View
    requires n < count && count * (4 * samples) <= sp
  {
    NonNegative(count, 4 * samples);
    NonNegative(count - 1 - n, samples);
    View(StackAlloc(sp, count * (4 * samples)) / 4 + (count - 1 - n) * samples, samples)
  }

  // The bytes a call needs, with its three kinds of records and its data
  function StructBytes(ins: nat, params: nat, outs: nat): nat {
    (ins + outs) * SAMPLE_FRAME + params * PARAM_FRAME
  }

  function DataBytes(inputs: seq<Input>, params: seq<Samples>, outs: seq<nat>, samples: nat): nat {
    4 * |Flat(inputs)| + 4 * |Concat(params)| + 4 * Room(outs, samples)
  }

  function Needed(inputs: seq<Input>, params: seq<Samples>, outs: seq<nat>, samples: nat): nat {
    RoundUp(StructBytes(|inputs|, |params|, |outs|) + DataBytes(inputs, params, outs, samples))
  }

  // All records of a call, and where its data starts
  function Records(inputs: seq<Input>, params: seq<Samples>, outs: seq<nat>, samples: nat, data: nat): seq<Word> {
    InputFrames(inputs, samples, data) +
    ParamFrames(params, data + 4 * |Flat(inputs)|) +
    OutputFrames(outs, samples, data + 4 * |Flat(inputs)| + 4 * |Concat(params)|)
  }

  ghost predicate Uniform(channels: seq<Samples>, samples: nat) {
    forall c | 0 <= c < |channels| :: |channels[c]| == samples
  }

  /** What the callback of a processor is told. */
  datatype CallArgs = CallArgs(numInputs: nat, inputsPtr: nat, numOutputs: nat, outputsPtr: nat,
                               numParams: nat, paramsPtr: nat)

  // The user's wasm code: from arguments and memory to memory and whether audio was produced
  type Callback = (CallArgs, seq<Word>) -> (seq<Word>, bool)

  class WasmAudioWorkletProcessor {
    const mem: Memory
    const samplesPerChannel: nat
    const bytesPerChannel: nat
    const outputViews: array<View>

    constructor (mem: Memory, samplesPerChannel: nat, stackSize: nat)
      requires samplesPerChannel > 0 && STACK_ALIGN <= stackSize <= mem.sp
      modifies mem`sp
      ensures this.mem == mem && this.samplesPerChannel == samplesPerChannel
      ensures bytesPerChannel == 4 * samplesPerChannel
      ensures fresh(outputViews) && outputViews.Length == ViewCount(stackSize, bytesPerChannel)
      ensures outputViews.Length * (4 * samplesPerChannel) <= mem.sp == old(mem.sp)
      ensures forall n | 0 <= n < outputViews.Length ::
                outputViews[n] == ViewAt(mem.sp, outputViews.Length, samplesPerChannel, n)
    {
      this.mem, this.samplesPerChannel := mem, samplesPerChannel;
      bytesPerChannel := samplesPerChannel * 4;
      outputViews := new View[ViewCount(stackSize, samplesPerChannel * 4)](_ => View(0, 0));
      new;
      ViewsFit(stackSize, bytesPerChannel);
      CreateOutputViews();
    }

    // Inserted in reverse, so that the lowest views are closest to the stack top.
    method CreateOutputViews()
      requires bytesPerChannel == 4 * samplesPerChannel
      requires outputViews.Length * (4 * samplesPerChannel) <= mem.sp
      modifies mem`sp, outputViews
      ensures mem.sp == old(mem.sp)
      ensures forall n | 0 <= n < outputViews.Length ::
                outputViews[n] == ViewAt(mem.sp, outputViews.Length, samplesPerChannel, n)
    {
      var oldStackPtr := mem.sp;
      var count := outputViews.Length;
      mem.sp := StackAlloc(mem.sp, count * bytesPerChannel);
      var viewDataIdx := mem.sp / 4;
      ghost var first := viewDataIdx;
      for n := count downto 0
        invariant viewDataIdx == first + (count - n) * samplesPerChannel
        invariant forall k | n <= k < count ::
                    outputViews[k] == ViewAt(oldStackPtr, count, samplesPerChannel, k)
      {
        outputViews[n] := View(viewDataIdx, samplesPerChannel);
        viewDataIdx := viewDataIdx + samplesPerChannel;
        assert (count - n) * samplesPerChannel == (count - n - 1) * samplesPerChannel + samplesPerChannel;
      }
      mem.sp := oldStackPtr;
    }

    // The loop over inputList
    method MarshalInputs(inputs: seq<Input>, at: nat, data: nat, ghost a: nat, ghost d: nat)
      returns (structPtr: nat, dataPtr: nat)
      requires bytesPerChannel == 4 * samplesPerChannel
      requires forall i | 0 <= i < |inputs| :: Uniform(inputs[i], samplesPerChannel)
      requires at == 4 * a && data == 4 * d && a + 3 * |inputs| <= d && d + |Flat(inputs)| <= mem.words.Length
      modifies mem.words
      ensures var frames := InputFrames(inputs, samplesPerChannel, data);
        |frames| == 3 * |inputs| &&
        mem.words[..] == Laid(old(mem.words[..]), a, frames, d, Flat(inputs))
      ensures structPtr == at + SAMPLE_FRAME * |inputs| && dataPtr == data + 4 * |Flat(inputs)|
    {
      hide Put, Laid, InputFrames, Flat, Concat, Uniform;
      structPtr, dataPtr := at, data;
      ghost var w := mem.words[..];
      ghost var frames, flat := [], [];
      LaidNothing(w, a, d);
      NothingYet(inputs, [], [], samplesPerChannel, data);
      for i := 0 to |inputs|
        invariant structPtr == 4 * (a + |frames|) && dataPtr == 4 * (d + |flat|)
        invariant frames == InputFrames(inputs[..i], samplesPerChannel, data) && |frames| == 3 * i
        invariant flat == Flat(inputs[..i]) && |flat| <= |Flat(inputs)|
        invariant mem.words[..] == Laid(w, a, frames, d, flat)
      {
        InputNext(inputs, samplesPerChannel, data, i);
        ghost var frame := [U32(|inputs[i]|), U32(samplesPerChannel), U32(dataPtr)];
        structPtr, dataPtr := MarshalInput(inputs[i], structPtr, dataPtr, w, a, frames, d, flat);
        frames, flat := frames + frame, flat + Concat(inputs[i]);
      }
      assert inputs[..|inputs|] == inputs;
    }

    // Its body: one input
    method MarshalInput(entry: Input, at: nat, data: nat, ghost w: seq<Word>, ghost a: nat, ghost frames: seq<Word>,
                        ghost d: nat, ghost flat: seq<Word>)
      returns (structPtr: nat, dataPtr: nat)
      requires bytesPerChannel == 4 * samplesPerChannel && Uniform(entry, samplesPerChannel)
      requires a + |frames| + 3 <= d && d + |flat| + |Concat(entry)| <= |w|
      requires at == 4 * (a + |frames|) && data == 4 * (d + |flat|)
      requires mem.words[..] == Laid(w, a, frames, d, flat)
      modifies mem.words
      ensures mem.words[..] == Laid(w, a, frames + [U32(|entry|), U32(samplesPerChannel), U32(data)], d,
                                    flat + Concat(entry))
      ensures structPtr == at + SAMPLE_FRAME && dataPtr == data + 4 * |Concat(entry)|
    {
      var frame := [U32(|entry|), U32(samplesPerChannel), U32(data)];
      mem.AppendRecord(at / 4, frame, w, a, frames, d, flat);
      structPtr := at + SAMPLE_FRAME;
      dataPtr := MarshalChannels(entry, data, w, a, frames + frame, d, flat);
    }

    // The inner loop: the channels of one input
    method MarshalChannels(entry: Input, data: nat, ghost w: seq<Word>, ghost a: nat, ghost frames: seq<Word>,
                           ghost d: nat, ghost flat: seq<Word>)
      returns (dataPtr: nat)
      requires bytesPerChannel == 4 * samplesPerChannel && Uniform(entry, samplesPerChannel)
      requires a + |frames| <= d && d + |flat| + |Concat(entry)| <= |w|
      requires data == 4 * (d + |flat|) && mem.words[..] == Laid(w, a, frames, d, flat)
      modifies mem.words
      ensures mem.words[..] == Laid(w, a, frames, d, flat + Concat(entry))
      ensures dataPtr == data + 4 * |Concat(entry)|
    {
      dataPtr := data;
      ghost var done := flat;
      for c := 0 to |entry|
        invariant done == flat + Concat(entry[..c]) && |done| <= |flat| + |Concat(entry)|
        invariant dataPtr == 4 * (d + |done|)
        invariant mem.words[..] == Laid(w, a, frames, d, done)
      {
        ConcatPrefix(entry, c + 1);
        ConcatNext(entry, c);
        mem.AppendSamples(dataPtr / 4, entry[c], w, a, frames, d, done);
        dataPtr := dataPtr + bytesPerChannel;
        done := done + entry[c];
      }
      assert entry[..|entry|] == entry;
    }

    // The loop over parameters, which are keyed 0, 1, ...
    method MarshalParams(params: seq<Samples>, at: nat, data: nat, ghost a: nat, ghost d: nat)
      returns (structPtr: nat, dataPtr: nat)
      requires at == 4 * a && data == 4 * d && a + 2 * |params| <= d && d + |Concat(params)| <= mem.words.Length
      modifies mem.words
      ensures var frames := ParamFrames(params, data);
        |frames| == 2 * |params| &&
        mem.words[..] == Laid(old(mem.words[..]), a, frames, d, Concat(params))
      ensures structPtr == at + PARAM_FRAME * |params| && dataPtr == data + 4 * |Concat(params)|
    {
      hide Put, Laid, ParamFrames, Concat;
      structPtr, dataPtr := at, data;
      ghost var w := mem.words[..];
      ghost var frames, done := [], [];
      LaidNothing(w, a, d);
      NothingYet([], params, [], samplesPerChannel, data);
      for i := 0 to |params|
        invariant structPtr == 4 * (a + |frames|) && dataPtr == 4 * (d + |done|)
        invariant frames == ParamFrames(params[..i], data) && |frames| == 2 * i
        invariant done == Concat(params[..i]) && |done| <= |Concat(params)|
        invariant mem.words[..] == Laid(w, a, frames, d, done)
      {
        ParamNext(params, data, i);
        ConcatNext(params, i);
        ConcatPrefix(params, i + 1);
        var frame := [U32(|params[i]|), U32(dataPtr)];
        mem.AppendRecord(structPtr / 4, frame, w, a, frames, d, done);
        structPtr := structPtr + PARAM_FRAME;
        frames := frames + frame;
        mem.AppendSamples(dataPtr / 4, params[i], w, a, frames, d, done);
        dataPtr := dataPtr + |params[i]| * 4;
        done := done + params[i];
      }
      assert params[..|params|] == params;
    }

    // The loop over outputList, which writes records only
    method MarshalOutputs(outs: seq<nat>, at: nat, data: nat, ghost a: nat) returns (structPtr: nat, dataPtr: nat)
      requires bytesPerChannel == 4 * samplesPerChannel
      requires at == 4 * a && a + 3 * |outs| <= mem.words.Length
      modifies mem.words
      ensures var frames := OutputFrames(outs, samplesPerChannel, data);
        |frames| == 3 * |outs| && mem.words[..] == Put(old(mem.words[..]), a, frames)
      ensures structPtr == at + SAMPLE_FRAME * |outs| && dataPtr == data + 4 * Room(outs, samplesPerChannel)
    {
      hide Put, Laid, OutputFrames, Room;
      structPtr, dataPtr := at, data;
      ghost var w, end := mem.words[..], mem.words.Length;
      ghost var frames := [];
      LaidNothing(w, a, end);
      NothingYet([], [], outs, samplesPerChannel, data);
      for i := 0 to |outs|
        invariant structPtr == 4 * (a + |frames|) && dataPtr == data + 4 * Room(outs[..i], samplesPerChannel)
        invariant frames == OutputFrames(outs[..i], samplesPerChannel, data) && |frames| == 3 * i
        invariant mem.words[..] == Laid(w, a, frames, end, [])
      {
        OutputNext(outs, samplesPerChannel, data, i);
        var frame := [U32(outs[i]), U32(samplesPerChannel), U32(dataPtr)];
        mem.AppendRecord(structPtr / 4, frame, w, a, frames, end, []);
        structPtr := structPtr + SAMPLE_FRAME;
        dataPtr := dataPtr + bytesPerChannel * outs[i];
        frames := frames + frame;
      }
      assert outs[..|outs|] == outs;
      LaidNoSamples(w, a, frames, end);
    }

    // Total number of channels in a list of inputs or outputs
    method CountChannels(list: seq<Input>) returns (n: nat)
      ensures n == Sum(Counts(list))
    {
      n := 0;
      for i := 0 to |list|
        invariant n == Sum(Counts(list)[..i])
      {
        assert Counts(list)[..i + 1][..i] == Counts(list)[..i];
        n := n + |list[i]|;
      }
      assert Counts(list)[..|list|] == Counts(list);
    }

    // Total bytes of the parameter arrays
    method ParamBytes(params: seq<Samples>) returns (n: nat)
      ensures n == 4 * |Concat(params)|
    {
      n := 0;
      for i := 0 to |params|
        invariant n == 4 * |Concat(params[..i])|
      {
        ConcatNext(params, i);
        n := n + 4 * |params[i]|;
      }
      assert params[..|params|] == params;
    }

    // The bytes of sample data that the outputs' views and the written data take
    method Measure(inputs: seq<Input>, outputs: seq<Input>, params: seq<Samples>) returns (stackMemoryData: nat)
      requires bytesPerChannel == 4 * samplesPerChannel
      requires forall i | 0 <= i < |inputs| :: Uniform(inputs[i], samplesPerChannel)
      ensures stackMemoryData == DataBytes(inputs, params, Counts(outputs), samplesPerChannel)
    {
      var inChannels := CountChannels(inputs);
      FlatLength(inputs, samplesPerChannel);
      Reassociate(samplesPerChannel, inChannels);
      var outputViewsNeeded := CountChannels(outputs);
      RoomIsProduct(Counts(outputs), samplesPerChannel);
      Reassociate(samplesPerChannel, outputViewsNeeded);
      var paramBytes := ParamBytes(params);
      stackMemoryData := inChannels * bytesPerChannel;
      stackMemoryData := stackMemoryData + outputViewsNeeded * bytesPerChannel;
      stackMemoryData := stackMemoryData + paramBytes;
    }

    // The three loops, records from address at and data from address data
    method MarshalAll(inputs: seq<Input>, params: seq<Samples>, outs: seq<nat>, at: nat, data: nat,
                      ghost a: nat, ghost d: nat)
      returns (paramsPtr: nat, outputsPtr: nat, dataPtr: nat)
      requires bytesPerChannel == 4 * samplesPerChannel
      requires forall i | 0 <= i < |inputs| :: Uniform(inputs[i], samplesPerChannel)
      requires at == 4 * a && data == 4 * d && a + 3 * |inputs| + 2 * |params| + 3 * |outs| <= d
      requires d + |Flat(inputs)| + |Concat(params)| <= mem.words.Length
      modifies mem.words
      ensures var records := Records(inputs, params, outs, samplesPerChannel, data);
        a + |records| <= d &&
        mem.words[..] == Laid(old(mem.words[..]), a, records, d, Flat(inputs) + Concat(params))
      ensures paramsPtr == at + SAMPLE_FRAME * |inputs| && outputsPtr == paramsPtr + PARAM_FRAME * |params|
      ensures dataPtr == data + DataBytes(inputs, params, outs, samplesPerChannel)
    {
      hide Put, Laid, InputFrames, ParamFrames, OutputFrames, Flat, Concat, Room, Uniform;
      ghost var w := mem.words[..];
      var paramData, structEnd;
      paramsPtr, paramData := MarshalInputs(inputs, at, data, a, d);
      ghost var r1, s1 := InputFrames(inputs, samplesPerChannel, data), Flat(inputs);
      outputsPtr, paramData := MarshalTail(params, paramsPtr, paramData, w, a, r1, d, s1);
      ghost var r2 := ParamFrames(params, data + 4 * |s1|);
      structEnd, dataPtr := MarshalOutputs(outs, outputsPtr, paramData, a + |r1 + r2|);
      LaidRecord(w, a, r1 + r2, d, s1 + Concat(params), OutputFrames(outs, samplesPerChannel, paramData));
    }

    // The parameters behind a layout w, a, r1, d, s1
    method MarshalTail(params: seq<Samples>, at: nat, data: nat, ghost w: seq<Word>, ghost a: nat, ghost r1: seq<Word>,
                       ghost d: nat, ghost s1: seq<Word>)
      returns (structPtr: nat, dataPtr: nat)
      requires a + |r1| + 2 * |params| <= d && d + |s1| + |Concat(params)| <= |w|
      requires at == 4 * (a + |r1|) && data == 4 * (d + |s1|)
      requires mem.words[..] == Laid(w, a, r1, d, s1)
      modifies mem.words
      ensures var r2 := ParamFrames(params, data);
        |r2| == 2 * |params| && mem.words[..] == Laid(w, a, r1 + r2, d, s1 + Concat(params))
      ensures structPtr == at + PARAM_FRAME * |params| && dataPtr == data + 4 * |Concat(params)|
    {
      structPtr, dataPtr := MarshalParams(params, at, data, a + |r1|, d + |s1|);
      LaidTwice(w, a, r1, d, s1, ParamFrames(params, data), Concat(params));
    }

    /** Lays out one call: memory becomes exactly Marshalled, and the data pointer ends at the
        stack pointer the call found. */
    method Marshal(inputs: seq<Input>, outputs: seq<Input>, params: seq<Samples>)
      returns (args: CallArgs, dataPtr: nat)
      requires bytesPerChannel == 4 * samplesPerChannel
      requires CallFits(mem.words[..], mem.sp, inputs, params, Counts(outputs), samplesPerChannel)
      modifies mem`sp, mem.words
      ensures mem.words[..] ==
              Marshalled(old(mem.words[..]), old(mem.sp), inputs, params, Counts(outputs), samplesPerChannel)
      ensures args == Args(old(mem.sp), inputs, params, Counts(outputs), samplesPerChannel)
      ensures dataPtr == old(mem.sp)
      ensures mem.sp == args.inputsPtr
    {
      hide Laid, Records, Flat, Concat, Room, Uniform, DataAt, StackAlloc, RoundUp;
      ghost var w, sp := mem.words[..], mem.sp;
      var outs := Counts(outputs);
      LayoutFits(w, sp, inputs, params, outs, samplesPerChannel);
      var stackMemoryStruct := StructBytes(|inputs|, |params|, |outputs|);
      var stackMemoryData := Measure(inputs, outputs, params);
      var stackMemoryAligned := RoundUp(stackMemoryStruct + stackMemoryData);
      StackAllocExact(mem.sp, stackMemoryAligned);
      mem.sp := StackAlloc(mem.sp, stackMemoryAligned);
      var inputsPtr := mem.sp;
      var data := inputsPtr + (stackMemoryAligned - stackMemoryData);
      ghost var a := RecordsAt(sp, inputs, params, outs, samplesPerChannel);
      ghost var d := DataAt(sp, inputs, params, outs, samplesPerChannel);
      var paramsPtr, outputsPtr;
      paramsPtr, outputsPtr, dataPtr := MarshalAll(inputs, params, outs, inputsPtr, data, a, d);
      args := CallArgs(|inputs|, inputsPtr, |outputs|, outputsPtr, |params|, paramsPtr);
    }

    // Copies the views back, taking them from the last one needed downwards.
    method ReadBack(outputs: seq<Input>) returns (r: seq<Input>)
      requires Sum(Counts(outputs)) <= outputViews.Length
      requires forall n | 0 <= n < outputViews.Length :: outputViews[n].first + outputViews[n].len <= mem.words.Length
      ensures r == ReadOutputs(mem.words[..], outputViews[..], Counts(outputs))
    {
      var outputViewsNeeded := CountChannels(outputs);
      ghost var outs, w, views := Counts(outputs), mem.words[..], outputViews[..];
      r := [];
      for o := 0 to |outputs|
        invariant outputViewsNeeded == Sum(outs) - Sum(outs[..o])
        invariant |r| == o && forall k | 0 <= k < o :: r[k] == ReadOutput(w, views, outs, k)
      {
        SumAt(outs, o);
        var entry: Input := [];
        for c := 0 to |outputs[o]|
          invariant outputViewsNeeded == Sum(outs) - Sum(outs[..o]) - c
          invariant |entry| == c && forall k | 0 <= k < c :: entry[k] == ReadChannel(w, views[ViewIndex(outs, o, k)])
        {
          outputViewsNeeded := outputViewsNeeded - 1;
          var view := outputViews[outputViewsNeeded];
          entry := entry + [mem.words[view.first..view.first + view.len]];
        }
        r := r + [entry];
      }
    }

    /** One call of process: memory is laid out, the callback runs on it, and if it produced audio
        the outputs are what it left under the views; the stack pointer ends where it began. */
    method Process(inputs: seq<Input>, outputs: seq<Input>, params: seq<Samples>, callback: Callback)
      returns (ok: bool, result: seq<Input>)
      requires bytesPerChannel == 4 * samplesPerChannel
      requires CallFits(mem.words[..], mem.sp, inputs, params, Counts(outputs), samplesPerChannel)
      requires Sum(Counts(outputs)) <= outputViews.Length
      requires forall n | 0 <= n < outputViews.Length :: outputViews[n].first + outputViews[n].len <= mem.words.Length
      requires forall args, w :: |callback(args, w).0| == |w|
      modifies mem`sp, mem.words
      ensures mem.sp == old(mem.sp)
      ensures var outs := Counts(outputs);
        var laid := Marshalled(old(mem.words[..]), old(mem.sp), inputs, params, outs, samplesPerChannel);
        && (mem.words[..], ok) == callback(Args(old(mem.sp), inputs, params, outs, samplesPerChannel), laid)
        && result == if ok then ReadOutputs(mem.words[..], outputViews[..], outs) else outputs
    {
      var oldStackPtr := mem.sp;
      var args, dataPtr := Marshal(inputs, outputs, params);
      assert dataPtr == oldStackPtr;
      var (after, didProduceAudio) := callback(args, mem.words[..]);
      PutAll(mem.words[..], after);
      mem.Set(0, after);
      ok, result := didProduceAudio, outputs;
      if didProduceAudio {
        result := ReadBack(outputs);
      }
      mem.sp := oldStackPtr;
    }
  }

  function Counts(list: seq<Input>): seq<nat> {
    seq(|list|, i requires 0 <= i < |list| => |list[i]|)
  }

  // What the source demands of a call: the stack is 16-byte aligned and inside 32-bit memory,
  // every channel has the fixed number of samples, and everything fits on the stack.
  ghost predicate CallFits(w: seq<Word>, sp: nat, inputs: seq<Input>, params: seq<Samples>, outs: seq<nat>,
                           samples: nat) {
    && sp % 16 == 0 && sp <= 4 * |w| <= 0x1_0000_0000 && sp < 0x1_0000_0000
    && 0 < 4 * samples <= sp
    && (forall i | 0 <= i < |inputs| :: Uniform(inputs[i], samples))
    && Needed(inputs, params, outs, samples) <= sp
  }

  lemma CountsNext(list: seq<Input>)
    requires list != []
    ensures Sum(Counts(list)) == Sum(Counts(list[..|list| - 1])) + |list[|list| - 1]|
  {
    assert Counts(list)[..|list| - 1] == Counts(list[..|list| - 1]);
  }

  lemma {:induction false} FlatLength(inputs: seq<Input>, samples: nat)
    requires forall i | 0 <= i < |inputs| :: Uniform(inputs[i], samples)
    ensures |Flat(inputs)| == samples * Sum(Counts(inputs))
  {
    if inputs != [] {
      var front, last := inputs[..|inputs| - 1], inputs[|inputs| - 1];
      FlatLength(front, samples);
      FlatNext(inputs, |front|);
      assert inputs[..|front| + 1] == inputs;
      CountsNext(inputs);
      UniformLength(last, samples);
      hide Flat, Concat, Sum, Counts, Uniform;
      Distribute(samples, Sum(Counts(front)), |last|);
    }
  }

  lemma {:induction false} UniformLength(channels: seq<Samples>, samples: nat)
    requires Uniform(channels, samples)
    ensures |Concat(channels)| == samples * |channels|
  {
    if channels != [] {
      UniformLength(channels[..|channels| - 1], samples);
      Distribute(samples, |channels| - 1, 1);
    }
  }

  // Word addresses of the records and of the data of a call
  function RecordsAt(sp: nat, inputs: seq<Input>, params: seq<Samples>, outs: seq<nat>, samples: nat): int {
    (sp - Needed(inputs, params, outs, samples)) / 4
  }

  function DataAt(sp: nat, inputs: seq<Input>, params: seq<Samples>, outs: seq<nat>, samples: nat): int {
    (sp - DataBytes(inputs, params, outs, samples)) / 4
  }

  lemma RecordsLength(inputs: seq<Input>, params: seq<Samples>, outs: seq<nat>, samples: nat, data: nat)
    ensures |Records(inputs, params, outs, samples, data)| == 3 * |inputs| + 2 * |params| + 3 * |outs|
  {
    InputFramesLength(inputs, samples, data);
    ParamFramesLength(params, data + 4 * |Flat(inputs)|);
    OutputFramesLength(outs, samples, data + 4 * |Flat(inputs)| + 4 * |Concat(params)|);
  }

  lemma LayoutFits(w: seq<Word>, sp: nat, inputs: seq<Input>, params: seq<Samples>, outs: seq<nat>, samples: nat)
    requires CallFits(w, sp, inputs, params, outs, samples)
    ensures var a, d := RecordsAt(sp, inputs, params, outs, samples), DataAt(sp, inputs, params, outs, samples);
      && sp - Needed(inputs, params, outs, samples) == 4 * a
      && sp - DataBytes(inputs, params, outs, samples) == 4 * d
      && 0 <= a <= d
      && |Records(inputs, params, outs, samples, 4 * d)| == 3 * |inputs| + 2 * |params| + 3 * |outs| <= d - a
      && d + |Flat(inputs)| + |Concat(params)| + Room(outs, samples) == sp / 4 <= |w|
  {
    hide Flat, Concat, Room, Uniform, Records;
    var x := |Flat(inputs)| + |Concat(params)| + Room(outs, samples);
    var n := 3 * |inputs| + 2 * |params| + 3 * |outs|;
    assert StructBytes(|inputs|, |params|, |outs|) == 4 * n;
    assert DataBytes(inputs, params, outs, samples) == 4 * x;
    assert Needed(inputs, params, outs, samples) == RoundUp(4 * n + 4 * x);
    LayoutArithmetic(sp, n, x);
    var d := DataAt(sp, inputs, params, outs, samples);
    assert d == (sp - 4 * x) / 4;
    RecordsLength(inputs, params, outs, samples, 4 * d);
  }

  lemma LayoutArithmetic(sp: nat, n: nat, x: nat)
    requires sp % 16 == 0 && RoundUp(4 * n + 4 * x) <= sp
    ensures var a, d := (sp - RoundUp(4 * n + 4 * x)) / 4, (sp - 4 * x) / 4;
      && sp - RoundUp(4 * n + 4 * x) == 4 * a && sp - 4 * x == 4 * d
      && 0 <= a && n <= d - a && d + x == sp / 4
  {
    var r := RoundUp(4 * n + 4 * x);
    var q, k := sp / 16, r / 16;
    assert sp == 16 * q && r == 16 * k;
    DivFour(4 * q - 4 * k);
    DivFour(4 * q - x);
    DivFour(4 * q);
  }

  lemma DivFour(m: int)
    ensures 4 * m / 4 == m
  {
  }

  // Memory as the callback finds it
  function Marshalled(w: seq<Word>, sp: nat, inputs: seq<Input>, params: seq<Samples>, outs: seq<nat>, samples: nat):
    seq<Word>
    requires CallFits(w, sp, inputs, params, outs, samples)
  {
    LayoutFits(w, sp, inputs, params, outs, samples);
    var d := DataAt(sp, inputs, params, outs, samples);
    Laid(w, RecordsAt(sp, inputs, params, outs, samples), Records(inputs, params, outs, samples, 4 * d),
         d, Flat(inputs) + Concat(params))
  }

  // The arguments the callback is given
  function Args(sp: nat, inputs: seq<Input>, params: seq<Samples>, outs: seq<nat>, samples: nat): CallArgs
    requires Needed(inputs, params, outs, samples) <= sp
  {
    var p := sp - Needed(inputs, params, outs, samples);
    CallArgs(|inputs|, p, |outs|, p + SAMPLE_FRAME * |inputs| + PARAM_FRAME * |params|, |params|,
             p + SAMPLE_FRAME * |inputs|)
  }

  // Laying out more records and samples behind the first ones
  lemma LaidTwice(w: seq<Word>, a: nat, r1: seq<Word>, d: nat, s1: seq<Word>, r2: seq<Word>, s2: seq<Word>)
    requires a + |r1| + |r2| <= d && d + |s1| + |s2| <= |w|
    ensures Laid(Laid(w, a, r1, d, s1), a + |r1|, r2, d + |s1|, s2) == Laid(w, a, r1 + r2, d, s1 + s2)
  {
    LaidRecord(w, a, r1, d, s1, r2);
    LaidSamples(w, a, r1 + r2, d, s1, s2);
  }

  lemma {:induction false} SumPrefix(ns: seq<nat>, i: nat)
    requires i <= |ns|
    ensures Sum(ns[..i]) <= Sum(ns)
  {
    if i < |ns| {
      assert ns[..|ns| - 1][..i] == ns[..i];
      SumPrefix(ns[..|ns| - 1], i);
    } else {
      assert ns[..i] == ns;
    }
  }

  lemma SumAt(ns: seq<nat>, i: nat)
    requires i < |ns|
    ensures Sum(ns[..i + 1]) == Sum(ns[..i]) + ns[i] <= Sum(ns)
  {
    assert ns[..i + 1][..i] == ns[..i];
    SumPrefix(ns, i + 1);
  }

  // The view that channel c of output o is read from
  function ViewIndex(outs: seq<nat>, o: nat, c: nat): (n: nat)
    requires o < |outs| && c < outs[o]
    ensures n < Sum(outs)
  {
    SumAt(outs, o);
    Sum(outs) - 1 - (Sum(outs[..o]) + c)
  }

  function ReadChannel(w: seq<Word>, v: View): Samples
    requires v.first + v.len <= |w|
  {
    w[v.first..v.first + v.len]
  }

  function ReadOutput(w: seq<Word>, views: seq<View>, outs: seq<nat>, o: nat): (r: Input)
    requires o < |outs| && Sum(outs) <= |views|
    requires forall n | 0 <= n < |views| :: views[n].first + views[n].len <= |w|
    ensures |r| == outs[o]
  {
    seq(outs[o], c requires 0 <= c < outs[o] => ReadChannel(w, views[ViewIndex(outs, o, c)]))
  }

  function ReadOutputs(w: seq<Word>, views: seq<View>, outs: seq<nat>): seq<Input>
    requires Sum(outs) <= |views|
    requires forall n | 0 <= n < |views| :: views[n].first + views[n].len <= |w|
  {
    seq(|outs|, o requires 0 <= o < |outs| => ReadOutput(w, views, outs, o))
  }

  lemma ParamNext(params: seq<Samples>, data: nat, i: nat)
    requires i < |params|
    ensures ParamFrames(params[..i + 1], data) ==
            ParamFrames(params[..i], data) + [U32(|params[i]|), U32(data + 4 * |Concat(params[..i])|)]
  {
    assert params[..i + 1][..i] == params[..i];
  }

  lemma InputNext(inputs: seq<Input>, samples: nat, data: nat, i: nat)
    requires i < |inputs|
    ensures InputFrames(inputs[..i + 1], samples, data) == InputFrames(inputs[..i], samples, data) +
              [U32(|inputs[i]|), U32(samples), U32(data + 4 * |Flat(inputs[..i])|)]
    ensures Flat(inputs[..i + 1]) == Flat(inputs[..i]) + Concat(inputs[i])
    ensures |Flat(inputs[..i + 1])| <= |Flat(inputs)|
  {
    assert inputs[..i + 1][..i] == inputs[..i];
    FlatNext(inputs, i);
    FlatAt(inputs, i);
  }

  lemma OutputNext(outs: seq<nat>, samples: nat, data: nat, i: nat)
    requires i < |outs|
    ensures OutputFrames(outs[..i + 1], samples, data) == OutputFrames(outs[..i], samples, data) +
              [U32(outs[i]), U32(samples), U32(data + 4 * Room(outs[..i], samples))]
    ensures 4 * Room(outs[..i + 1], samples) == 4 * Room(outs[..i], samples) + (4 * samples) * outs[i]
  {
    assert outs[..i + 1][..i] == outs[..i];
    Reassociate(samples, outs[i]);
  }

  lemma {:induction false} RoomIsProduct(outs: seq<nat>, samples: nat)
    ensures Room(outs, samples) == samples * Sum(outs)
  {
    if outs != [] {
      RoomIsProduct(outs[..|outs| - 1], samples);
      Distribute(samples, Sum(outs[..|outs| - 1]), outs[|outs| - 1]);
    }
  }

  lemma StackAllocExact(sp: nat, n: nat)
    requires sp % 16 == 0 && n % 16 == 0 && n <= sp
    ensures StackAlloc(sp, n) == sp - n
  {
    assert sp - n == 16 * (sp / 16 - n / 16);
  }

  lemma Reassociate(a: int, b: int)
    ensures 4 * (a * b) == (4 * a) * b == b * (4 * a)
  {
  }

  lemma Distribute(a: int, b: int, c: int)
    ensures a * (b + c) == a * b + a * c
  {
  }

  lemma ViewsFit(stackSize: nat, bytesPerChannel: nat)
    requires stackSize >= STACK_ALIGN && bytesPerChannel > 0
    ensures ViewCount(stackSize, bytesPerChannel) * bytesPerChannel <= stackSize - STACK_ALIGN
  {
    var room := stackSize - STACK_ALIGN;
    var n := room / bytesPerChannel;
    assert room == n * bytesPerChannel + room % bytesPerChannel;
    assert ViewCount(stackSize, bytesPerChannel) <= n;
    MulMonotone(ViewCount(stackSize, bytesPerChannel), n, bytesPerChannel);
  }

  lemma MulMonotone(a: nat, b: nat, c: nat)
    requires a <= b
    ensures a * c <= b * c
  {
    assert b * c == a * c + (b - a) * c;
  }

  // ---- The callback's reading of its arguments ----

  lemma HasPart(w: seq<Word>, at: nat, data: seq<Word>, i: nat, part: seq<Word>)
    requires HasAt(w, at, data) && HasAt(data, i, part)
    ensures HasAt(w, at + i, part)
  {
    forall k | 0 <= k < |part| ensures w[at + i + k] == part[k] {
      assert w[at + (i + k)] == data[i + k];
    }
  }

  lemma SliceOf(w: seq<Word>, at: nat, data: seq<Word>)
    requires HasAt(w, at, data)
    ensures Slice(w, at, |data|) == data
  {
  }

  lemma LaidHas(w: seq<Word>, a: nat, records: seq<Word>, d: nat, samples: seq<Word>)
    requires a + |records| <= d && d + |samples| <= |w|
    ensures HasAt(Laid(w, a, records, d, samples), a, records)
    ensures HasAt(Laid(w, a, records, d, samples), d, samples)
    ensures forall k | 0 <= k < a || a + |records| <= k < d || d + |samples| <= k < |w| ::
              Laid(w, a, records, d, samples)[k] == w[k]
  {
    forall k | 0 <= k < |w| ensures Laid(w, a, records, d, samples)[k] ==
        if a <= k < a + |records| then records[k - a] else if d <= k < d + |samples| then samples[k - d] else w[k]
    {
      PutReads(Put(w, a, records), d, samples, k);
      PutReads(w, a, records, k);
    }
  }

  function At(w: seq<Word>, i: nat): Word {
    if i < |w| then w[i] else 0
  }

  function Slice(w: seq<Word>, at: nat, len: nat): Samples {
    if at + len <= |w| then w[at..at + len] else []
  }

  // The word at address p
  function WordAt(p: nat): nat {
    p / 4
  }

  // What wasm code finds following the AudioSampleFrame in words q, q + 1 and q + 2
  function ReadInput(w: seq<Word>, q: nat): Input {
    ReadChannels(w, At(w, q), At(w, q + 1), WordAt(At(w, q + 2)))
  }

  function ReadChannels(w: seq<Word>, channels: nat, samples: nat, data: nat): Input {
    seq(channels, c requires 0 <= c < channels => Slice(w, data + samples * c, samples))
  }

  function ReadInputs(w: seq<Word>, inputsPtr: nat, numInputs: nat): seq<Input> {
    seq(numInputs, i requires 0 <= i < numInputs => ReadInput(w, WordAt(inputsPtr + SAMPLE_FRAME * i)))
  }

  // ... and the AudioParamFrame in words q and q + 1
  function ReadParam(w: seq<Word>, q: nat): Samples {
    Slice(w, WordAt(At(w, q + 1)), At(w, q))
  }

  function ReadParams(w: seq<Word>, paramsPtr: nat, numParams: nat): seq<Samples> {
    seq(numParams, i requires 0 <= i < numParams => ReadParam(w, WordAt(paramsPtr + PARAM_FRAME * i)))
  }

  lemma WordOf(k: nat)
    ensures WordAt(4 * k) == k
  {
  }

  lemma {:induction false} InputFrameAt(inputs: seq<Input>, samples: nat, data: nat, i: nat)
    requires i < |inputs|
    ensures |InputFrames(inputs, samples, data)| == 3 * |inputs|
    ensures HasAt(InputFrames(inputs, samples, data), 3 * i,
                  [U32(|inputs[i]|), U32(samples), U32(data + 4 * |Flat(inputs[..i])|)])
  {
    hide Flat, U32;
    var front := inputs[..|inputs| - 1];
    InputFramesLength(inputs, samples, data);
    InputFramesLength(front, samples, data);
    if i < |front| {
      InputFrameAt(front, samples, data, i);
      assert front[..i] == inputs[..i];
    }
  }

  lemma {:induction false} ParamFrameAt(params: seq<Samples>, data: nat, i: nat)
    requires i < |params|
    ensures |ParamFrames(params, data)| == 2 * |params|
    ensures HasAt(ParamFrames(params, data), 2 * i, [U32(|params[i]|), U32(data + 4 * |Concat(params[..i])|)])
  {
    var front := params[..|params| - 1];
    ParamFramesLength(params, data);
    ParamFramesLength(front, data);
    if i < |front| {
      ParamFrameAt(front, data, i);
      assert front[..i] == params[..i];
    }
  }

  lemma {:induction false} OutputFrameAt(outs: seq<nat>, samples: nat, data: nat, o: nat)
    requires o < |outs|
    ensures |OutputFrames(outs, samples, data)| == 3 * |outs|
    ensures HasAt(OutputFrames(outs, samples, data), 3 * o,
                  [U32(outs[o]), U32(samples), U32(data + 4 * Room(outs[..o], samples))])
  {
    var front := outs[..|outs| - 1];
    OutputFramesLength(outs, samples, data);
    OutputFramesLength(front, samples, data);
    if o < |front| {
      OutputFrameAt(front, samples, data, o);
      assert front[..o] == outs[..o];
    }
  }

  // Channel c of input i lies where its number says.
  lemma ChannelInFlat(w: seq<Word>, d: nat, inputs: seq<Input>, samples: nat, i: nat, c: nat)
    requires HasAt(w, d, Flat(inputs)) && i < |inputs| && c < |inputs[i]| && Uniform(inputs[i], samples)
    ensures HasAt(w, d + |Flat(inputs[..i])| + samples * c, inputs[i][c])
  {
    FlatAt(inputs, i);
    HasPart(w, d, Flat(inputs), |Flat(inputs[..i])|, Concat(inputs[i]));
    ConcatAt(inputs[i], c);
    UniformLength(inputs[i][..c], samples);
    HasPart(w, d + |Flat(inputs[..i])|, Concat(inputs[i]), samples * c, inputs[i][c]);
  }

  // An input's channel count and data address survive the store of 32 bits.
  lemma InputFrameFits(w: seq<Word>, d: nat, inputs: seq<Input>, samples: nat, i: nat)
    requires HasAt(w, d, Flat(inputs)) && i < |inputs| && Uniform(inputs[i], samples) && 4 * |w| <= 0x1_0000_0000
    requires 0 < 4 * samples < 0x1_0000_0000
    ensures U32(samples) == samples && U32(|inputs[i]|) == |inputs[i]|
    ensures inputs[i] != [] ==> U32(4 * d + 4 * |Flat(inputs[..i])|) == 4 * d + 4 * |Flat(inputs[..i])|
  {
    hide Flat, Concat, Uniform;
    FlatAt(inputs, i);
    UniformLength(inputs[i], samples);
    MulMonotone(1, samples, |inputs[i]|);
    assert d + |Flat(inputs)| <= |w|;
    hide HasAt;
  }

  lemma InputRecordRead(w: seq<Word>, a: nat, d: nat, inputs: seq<Input>, samples: nat, i: nat)
    requires HasAt(w, a, InputFrames(inputs, samples, 4 * d)) && i < |inputs|
    ensures At(w, a + 3 * i) == U32(|inputs[i]|)
    ensures At(w, a + 3 * i + 1) == U32(samples)
    ensures At(w, a + 3 * i + 2) == U32(4 * d + 4 * |Flat(inputs[..i])|)
  {
    InputFrameAt(inputs, samples, 4 * d, i);
    var frame := [U32(|inputs[i]|), U32(samples), U32(4 * d + 4 * |Flat(inputs[..i])|)];
    HasPart(w, a, InputFrames(inputs, samples, 4 * d), 3 * i, frame);
    assert frame[0] == w[a + 3 * i + 0] && frame[1] == w[a + 3 * i + 1] && frame[2] == w[a + 3 * i + 2];
  }

  lemma InputRecovered(w: seq<Word>, a: nat, d: nat, inputs: seq<Input>, samples: nat, i: nat)
    requires HasAt(w, a, InputFrames(inputs, samples, 4 * d)) && HasAt(w, d, Flat(inputs))
    requires i < |inputs| && Uniform(inputs[i], samples)
    requires 4 * |w| <= 0x1_0000_0000 && 0 < 4 * samples < 0x1_0000_0000
    ensures ReadInput(w, a + 3 * i) == inputs[i]
  {
    hide InputFrames, Flat, Concat, HasAt, U32, At, Slice;
    InputRecordRead(w, a, d, inputs, samples, i);
    InputFrameFits(w, d, inputs, samples, i);
    var from := d + |Flat(inputs[..i])|;
    if inputs[i] != [] {
      WordOf(from);
      assert ReadInput(w, a + 3 * i) == ReadChannels(w, |inputs[i]|, samples, from);
      forall c | 0 <= c < |inputs[i]| ensures ReadChannels(w, |inputs[i]|, samples, from)[c] == inputs[i][c] {
        ChannelInFlat(w, d, inputs, samples, i, c);
        SliceOf(w, from + samples * c, inputs[i][c]);
      }
    }
  }

  lemma ParamRecordRead(w: seq<Word>, a: nat, d: nat, params: seq<Samples>, i: nat)
    requires HasAt(w, a, ParamFrames(params, 4 * d)) && i < |params|
    ensures At(w, a + 2 * i) == U32(|params[i]|)
    ensures At(w, a + 2 * i + 1) == U32(4 * d + 4 * |Concat(params[..i])|)
  {
    ParamFrameAt(params, 4 * d, i);
    var frame := [U32(|params[i]|), U32(4 * d + 4 * |Concat(params[..i])|)];
    HasPart(w, a, ParamFrames(params, 4 * d), 2 * i, frame);
    assert frame[0] == w[a + 2 * i + 0] && frame[1] == w[a + 2 * i + 1];
  }

  lemma ParamRecovered(w: seq<Word>, a: nat, d: nat, params: seq<Samples>, i: nat)
    requires HasAt(w, a, ParamFrames(params, 4 * d)) && HasAt(w, d, Concat(params))
    requires i < |params| && 4 * |w| <= 0x1_0000_0000
    ensures ReadParam(w, a + 2 * i) == params[i]
  {
    hide ParamFrames, Concat;
    var from := d + |Concat(params[..i])|;
    ParamRecordRead(w, a, d, params, i);
    ConcatAt(params, i);
    HasPart(w, d, Concat(params), |Concat(params[..i])|, params[i]);
    SliceOf(w, from, params[i]);
    assert from + |params[i]| <= |w|;
    hide HasAt;
    if params[i] != [] {
      WordOf(from);
      assert U32(4 * from) == 4 * from && U32(|params[i]|) == |params[i]|;
      assert ReadParam(w, a + 2 * i) == Slice(w, from, |params[i]|);
    }
  }

  lemma JoinHas(a: seq<Word>, b: seq<Word>, c: seq<Word>)
    ensures HasAt(a + b + c, 0, a) && HasAt(a + b + c, |a|, b) && HasAt(a + b + c, |a| + |b|, c)
  {
  }

  // The five parts of the layout, each where it belongs
  lemma LaidParts(w: seq<Word>, a: nat, r1: seq<Word>, r2: seq<Word>, r3: seq<Word>, d: nat, s1: seq<Word>,
                  s2: seq<Word>)
    requires a + |r1 + r2 + r3| <= d && d + |s1 + s2| <= |w|
    ensures var m := Laid(w, a, r1 + r2 + r3, d, s1 + s2);
      && HasAt(m, a, r1) && HasAt(m, a + |r1|, r2) && HasAt(m, a + |r1| + |r2|, r3)
      && HasAt(m, d, s1) && HasAt(m, d + |s1|, s2)
  {
    var m := Laid(w, a, r1 + r2 + r3, d, s1 + s2);
    LaidHas(w, a, r1 + r2 + r3, d, s1 + s2);
    JoinHas(r1, r2, r3);
    JoinHas(s1, s2, []);
    assert s1 + s2 + [] == s1 + s2;
    hide HasAt, Laid;
    HasPart(m, a, r1 + r2 + r3, 0, r1);
    HasPart(m, a, r1 + r2 + r3, |r1|, r2);
    HasPart(m, a, r1 + r2 + r3, |r1| + |r2|, r3);
    HasPart(m, d, s1 + s2, 0, s1);
    HasPart(m, d, s1 + s2, |s1|, s2);
  }

  // The layout of a call, in words
  lemma MarshalledIs(w: seq<Word>, sp: nat, inputs: seq<Input>, params: seq<Samples>, outs: seq<nat>, samples: nat,
                     a: nat, d: nat)
    requires CallFits(w, sp, inputs, params, outs, samples)
    requires a == RecordsAt(sp, inputs, params, outs, samples) && d == DataAt(sp, inputs, params, outs, samples)
    ensures var r := Records(inputs, params, outs, samples, 4 * d);
      && a + |r| <= d && d + |Flat(inputs) + Concat(params)| <= |w|
      && Marshalled(w, sp, inputs, params, outs, samples) == Laid(w, a, r, d, Flat(inputs) + Concat(params))
  {
    LayoutFits(w, sp, inputs, params, outs, samples);
  }

  // The five parts of the layout in memory m, records from word a and data from word d
  ghost predicate HasParts(m: seq<Word>, inputs: seq<Input>, params: seq<Samples>, outs: seq<nat>, samples: nat,
                           a: nat, d: nat) {
    && HasAt(m, a, InputFrames(inputs, samples, 4 * d)) && HasAt(m, d, Flat(inputs))
    && HasAt(m, a + 3 * |inputs|, ParamFrames(params, 4 * d + 4 * |Flat(inputs)|))
    && HasAt(m, d + |Flat(inputs)|, Concat(params))
    && HasAt(m, a + 3 * |inputs| + 2 * |params|,
             OutputFrames(outs, samples, 4 * d + 4 * |Flat(inputs)| + 4 * |Concat(params)|))
  }

  lemma MarshalledParts(w: seq<Word>, sp: nat, inputs: seq<Input>, params: seq<Samples>, outs: seq<nat>, samples: nat)
    requires CallFits(w, sp, inputs, params, outs, samples)
    ensures var a, d := RecordsAt(sp, inputs, params, outs, samples), DataAt(sp, inputs, params, outs, samples);
      0 <= a <= d && HasParts(Marshalled(w, sp, inputs, params, outs, samples), inputs, params, outs, samples, a, d)
  {
    LayoutFits(w, sp, inputs, params, outs, samples);
    var a, d := RecordsAt(sp, inputs, params, outs, samples), DataAt(sp, inputs, params, outs, samples);
    MarshalledIs(w, sp, inputs, params, outs, samples, a, d);
    RecordsParts(w, inputs, params, outs, samples, a, d);
  }

  lemma RecordsParts(w: seq<Word>, inputs: seq<Input>, params: seq<Samples>, outs: seq<nat>, samples: nat,
                     a: nat, d: nat)
    requires a + |Records(inputs, params, outs, samples, 4 * d)| <= d
    requires d + |Flat(inputs) + Concat(params)| <= |w|
    ensures HasParts(Laid(w, a, Records(inputs, params, outs, samples, 4 * d), d, Flat(inputs) + Concat(params)),
                     inputs, params, outs, samples, a, d)
  {
    hide Laid, InputFrames, ParamFrames, OutputFrames, Concat, Flat;
    InputFramesLength(inputs, samples, 4 * d);
    ParamFramesLength(params, 4 * d + 4 * |Flat(inputs)|);
    LaidParts(w, a, InputFrames(inputs, samples, 4 * d), ParamFrames(params, 4 * d + 4 * |Flat(inputs)|),
              OutputFrames(outs, samples, 4 * d + 4 * |Flat(inputs)| + 4 * |Concat(params)|), d, Flat(inputs),
              Concat(params));
  }

  lemma InputsRecovered(m: seq<Word>, inputs: seq<Input>, samples: nat, a: nat, d: nat)
    requires HasAt(m, a, InputFrames(inputs, samples, 4 * d)) && HasAt(m, d, Flat(inputs))
    requires forall i | 0 <= i < |inputs| :: Uniform(inputs[i], samples)
    requires 4 * |m| <= 0x1_0000_0000 && 0 < 4 * samples < 0x1_0000_0000
    ensures ReadInputs(m, 4 * a, |inputs|) == inputs
  {
    var r := ReadInputs(m, 4 * a, |inputs|);
    forall i | 0 <= i < |inputs| ensures r[i] == inputs[i] {
      WordOf(a + 3 * i);
      assert r[i] == ReadInput(m, a + 3 * i);
      InputRecovered(m, a, d, inputs, samples, i);
    }
  }

  lemma ParamsRecovered(m: seq<Word>, params: seq<Samples>, a: nat, d: nat)
    requires HasAt(m, a, ParamFrames(params, 4 * d)) && HasAt(m, d, Concat(params))
    requires 4 * |m| <= 0x1_0000_0000
    ensures ReadParams(m, 4 * a, |params|) == params
  {
    var r := ReadParams(m, 4 * a, |params|);
    forall i | 0 <= i < |params| ensures r[i] == params[i] {
      WordOf(a + 2 * i);
      assert r[i] == ReadParam(m, a + 2 * i);
      ParamRecovered(m, a, d, params, i);
    }
  }

  lemma MarshalledLength(w: seq<Word>, sp: nat, inputs: seq<Input>, params: seq<Samples>, outs: seq<nat>, samples: nat)
    requires CallFits(w, sp, inputs, params, outs, samples)
    ensures |Marshalled(w, sp, inputs, params, outs, samples)| == |w|
  {
    hide CallFits, Records, Flat, Concat;
  }

  /** Round trip: from its arguments the callback recovers exactly the inputs and the parameters,
      whatever they are, as long as the call fits. */
  lemma CallbackRecoversInputs(w: seq<Word>, sp: nat, inputs: seq<Input>, params: seq<Samples>, outs: seq<nat>,
                               samples: nat)
    requires CallFits(w, sp, inputs, params, outs, samples)
    ensures var m, args := Marshalled(w, sp, inputs, params, outs, samples), Args(sp, inputs, params, outs, samples);
      && ReadInputs(m, args.inputsPtr, args.numInputs) == inputs
      && ReadParams(m, args.paramsPtr, args.numParams) == params
  {
    hide Marshalled, HasParts, Records, ReadInputs, ReadParams, Uniform, Flat, Concat, Room;
    LayoutFits(w, sp, inputs, params, outs, samples);
    MarshalledParts(w, sp, inputs, params, outs, samples);
    MarshalledLength(w, sp, inputs, params, outs, samples);
    hide RecordsAt, DataAt;
    PartsRecovered(Marshalled(w, sp, inputs, params, outs, samples), inputs, params, outs, samples,
                   RecordsAt(sp, inputs, params, outs, samples), DataAt(sp, inputs, params, outs, samples));
  }

  lemma PartsRecovered(m: seq<Word>, inputs: seq<Input>, params: seq<Samples>, outs: seq<nat>, samples: nat,
                       a: nat, d: nat)
    requires HasParts(m, inputs, params, outs, samples, a, d)
    requires forall i | 0 <= i < |inputs| :: Uniform(inputs[i], samples)
    requires 4 * |m| <= 0x1_0000_0000 && 0 < 4 * samples < 0x1_0000_0000
    ensures ReadInputs(m, 4 * a, |inputs|) == inputs
    ensures ReadParams(m, 4 * (a + 3 * |inputs|), |params|) == params
  {
    InputsRecovered(m, inputs, samples, a, d);
    ParamsRecovered(m, params, a + 3 * |inputs|, d + |Flat(inputs)|);
  }

  /** Nothing outside the block between the new and the old stack pointer is written, and the
      output areas keep what was there. */
  lemma OnlyBlockWritten(w: seq<Word>, sp: nat, inputs: seq<Input>, params: seq<Samples>, outs: seq<nat>, samples: nat,
                         k: nat)
    requires CallFits(w, sp, inputs, params, outs, samples) && k < |w|
    requires 4 * k < sp - Needed(inputs, params, outs, samples) || 4 * k >= sp - 4 * Room(outs, samples)
    ensures Marshalled(w, sp, inputs, params, outs, samples)[k] == w[k]
  {
    LayoutFits(w, sp, inputs, params, outs, samples);
    var d := DataAt(sp, inputs, params, outs, samples);
    LaidHas(w, RecordsAt(sp, inputs, params, outs, samples), Records(inputs, params, outs, samples, 4 * d),
            d, Flat(inputs) + Concat(params));
  }

  // ---- The two address schemes for outputs ----

  // Where the callback is told to put channel c of output o
  function OutputAddress(sp: nat, outs: seq<nat>, samples: nat, o: nat, c: nat): int
    requires o < |outs|
  {
    sp - 4 * Room(outs, samples) + 4 * Room(outs[..o], samples) + 4 * samples * c
  }

  lemma OutputRecordRead(m: seq<Word>, q: nat, outs: seq<nat>, samples: nat, data: nat, o: nat)
    requires HasAt(m, q, OutputFrames(outs, samples, data)) && o < |outs|
    ensures At(m, q + 3 * o) == U32(outs[o])
    ensures At(m, q + 3 * o + 1) == U32(samples)
    ensures At(m, q + 3 * o + 2) == U32(data + 4 * Room(outs[..o], samples))
  {
    OutputFrameAt(outs, samples, data, o);
    var frame := [U32(outs[o]), U32(samples), U32(data + 4 * Room(outs[..o], samples))];
    HasPart(m, q, OutputFrames(outs, samples, data), 3 * o, frame);
    assert frame[0] == m[q + 3 * o + 0] && frame[1] == m[q + 3 * o + 1] && frame[2] == m[q + 3 * o + 2];
  }

  // The first word of the record of output o
  function OutputRecord(sp: nat, inputs: seq<Input>, params: seq<Samples>, outs: seq<nat>, samples: nat, o: nat): nat
    requires Needed(inputs, params, outs, samples) <= sp
  {
    WordAt(Args(sp, inputs, params, outs, samples).outputsPtr + SAMPLE_FRAME * o)
  }

  lemma OutputRecordIs(w: seq<Word>, sp: nat, inputs: seq<Input>, params: seq<Samples>, outs: seq<nat>, samples: nat,
                       o: nat)
    requires CallFits(w, sp, inputs, params, outs, samples)
    ensures OutputRecord(sp, inputs, params, outs, samples, o) ==
            RecordsAt(sp, inputs, params, outs, samples) + 3 * |inputs| + 2 * |params| + 3 * o
  {
    LayoutFits(w, sp, inputs, params, outs, samples);
    hide Needed, DataAt, RecordsAt;
    WordOf(RecordsAt(sp, inputs, params, outs, samples) + 3 * |inputs| + 2 * |params| + 3 * o);
  }

  // What the record of output o says, in a layout whose data ends at sp
  lemma OutputRecordInParts(m: seq<Word>, inputs: seq<Input>, params: seq<Samples>, outs: seq<nat>, samples: nat,
                            a: nat, d: nat, sp: nat, o: nat)
    requires HasParts(m, inputs, params, outs, samples, a, d) && o < |outs|
    requires sp == 4 * (d + |Flat(inputs)| + |Concat(params)| + Room(outs, samples)) < 0x1_0000_0000
    requires 0 < 4 * samples <= sp
    ensures var q := a + 3 * |inputs| + 2 * |params| + 3 * o;
      && At(m, q) == outs[o] && At(m, q + 1) == samples && At(m, q + 2) == OutputAddress(sp, outs, samples, o, 0)
  {
    hide InputFrames, ParamFrames, OutputFrames, Concat, Flat, Room, HasAt, At;
    var data := 4 * d + 4 * |Flat(inputs)| + 4 * |Concat(params)|;
    OutputRecordRead(m, a + 3 * |inputs| + 2 * |params|, outs, samples, data, o);
    RoomAt(outs, samples, o);
    var room, before := Room(outs, samples), Room(outs[..o], samples);
    hide HasParts;
    assert U32(outs[o]) == outs[o] && U32(samples) == samples && U32(data + 4 * before) == data + 4 * before;
  }

  // The address the record of output o gives to the callback
  function ToldAddress(w: seq<Word>, sp: nat, inputs: seq<Input>, params: seq<Samples>, outs: seq<nat>, samples: nat,
                       o: nat): nat
    requires CallFits(w, sp, inputs, params, outs, samples)
  {
    At(Marshalled(w, sp, inputs, params, outs, samples), OutputRecord(sp, inputs, params, outs, samples, o) + 2)
  }

  /** The record of output o that the callback reads holds its number of channels, the number of
      samples, and the address of its first channel. */
  lemma OutputRecordTold(w: seq<Word>, sp: nat, inputs: seq<Input>, params: seq<Samples>, outs: seq<nat>, samples: nat,
                         o: nat)
    requires CallFits(w, sp, inputs, params, outs, samples) && o < |outs|
    ensures var m := Marshalled(w, sp, inputs, params, outs, samples);
      var q := OutputRecord(sp, inputs, params, outs, samples, o);
      && At(m, q) == outs[o] && At(m, q + 1) == samples
      && ToldAddress(w, sp, inputs, params, outs, samples, o) == OutputAddress(sp, outs, samples, o, 0)
  {
    hide Marshalled, Concat, Flat, Room, OutputRecord, Args, RecordsAt, DataAt, Needed, At, Uniform, HasParts,
         OutputAddress;
    LayoutFits(w, sp, inputs, params, outs, samples);
    MarshalledParts(w, sp, inputs, params, outs, samples);
    OutputRecordIs(w, sp, inputs, params, outs, samples, o);
    var a, d := RecordsAt(sp, inputs, params, outs, samples), DataAt(sp, inputs, params, outs, samples);
    assert sp == 4 * (sp / 4);
    OutputRecordInParts(Marshalled(w, sp, inputs, params, outs, samples), inputs, params, outs, samples, a, d, sp, o);
  }

  // An output as the callback finds it described
  datatype OutputFrame = OutputFrame(channels: nat, samples: nat, data: nat)

  function ReadOutputFrame(w: seq<Word>, q: nat): OutputFrame {
    OutputFrame(At(w, q), At(w, q + 1), At(w, q + 2))
  }

  function ReadOutputFrames(w: seq<Word>, outputsPtr: nat, numOutputs: nat): seq<OutputFrame> {
    seq(numOutputs, o requires 0 <= o < numOutputs => ReadOutputFrame(w, WordAt(outputsPtr + 12 * o)))
  }

  // Where the area of an output ends
  function AreaEnd(frame: OutputFrame): nat {
    NonNegative(frame.samples, frame.channels);
    frame.data + 4 * (frame.samples * frame.channels)
  }

  // The frames describe these outputs, their areas adjacent up to address sp.
  ghost predicate Describe(frames: seq<OutputFrame>, outs: seq<nat>, samples: nat, sp: nat) {
    && |frames| == |outs|
    && (forall o | 0 <= o < |outs| :: frames[o].channels == outs[o] && frames[o].samples == samples)
    && (forall o | 0 <= o < |outs| - 1 :: AreaEnd(frames[o]) == frames[o + 1].data)
    && (outs != [] ==> AreaEnd(frames[|outs| - 1]) == sp)
  }

  /** From its arguments the callback finds exactly the outputs: as many as there are, each with its
      number of channels, the number of samples, and the address of its own area, the areas adjacent
      up to the stack pointer. */
  lemma CallbackFindsOutputs(w: seq<Word>, sp: nat, inputs: seq<Input>, params: seq<Samples>, outs: seq<nat>,
                             samples: nat)
    requires CallFits(w, sp, inputs, params, outs, samples)
    ensures var m, args := Marshalled(w, sp, inputs, params, outs, samples), Args(sp, inputs, params, outs, samples);
      Describe(ReadOutputFrames(m, args.outputsPtr, args.numOutputs), outs, samples, sp)
  {
    assert Needed(inputs, params, outs, samples) <= sp;
    hide Marshalled, Needed, CallFits, Args, ReadOutputFrame, OutputAddress;
    var m, args := Marshalled(w, sp, inputs, params, outs, samples), Args(sp, inputs, params, outs, samples);
    var frames := ReadOutputFrames(m, args.outputsPtr, args.numOutputs);
    ArgsCountOutputs(sp, inputs, params, outs, samples);
    forall o | 0 <= o < |outs| ensures TellsOf(frames[o], sp, outs, samples, o) {
      OutputFrameTold(w, sp, inputs, params, outs, samples, o);
    }
    hide *;
    FramesDescribe(frames, outs, samples, sp);
  }

  // The frame is that of output o.
  ghost predicate TellsOf(frame: OutputFrame, sp: nat, outs: seq<nat>, samples: nat, o: nat) {
    o < |outs| && frame.channels == outs[o] && frame.samples == samples &&
    frame.data == OutputAddress(sp, outs, samples, o, 0)
  }

  lemma FramesDescribe(frames: seq<OutputFrame>, outs: seq<nat>, samples: nat, sp: nat)
    requires |frames| == |outs| && forall o | 0 <= o < |outs| :: TellsOf(frames[o], sp, outs, samples, o)
    ensures Describe(frames, outs, samples, sp)
  {
    hide OutputAddress, AreaEnd;
    forall o | 0 <= o < |outs| ensures frames[o].channels == outs[o] && frames[o].samples == samples {
      assert TellsOf(frames[o], sp, outs, samples, o);
    }
    forall o | 0 <= o < |outs| - 1 ensures AreaEnd(frames[o]) == frames[o + 1].data {
      AreaAfter(sp, outs, samples, o, frames[o]);
      assert TellsOf(frames[o + 1], sp, outs, samples, o + 1);
    }
    if outs != [] {
      AreaAfter(sp, outs, samples, |outs| - 1, frames[|outs| - 1]);
    }
  }

  lemma ArgsCountOutputs(sp: nat, inputs: seq<Input>, params: seq<Samples>, outs: seq<nat>, samples: nat)
    requires Needed(inputs, params, outs, samples) <= sp
    ensures Args(sp, inputs, params, outs, samples).numOutputs == |outs|
  {
  }

  lemma OutputFrameTold(w: seq<Word>, sp: nat, inputs: seq<Input>, params: seq<Samples>, outs: seq<nat>, samples: nat,
                        o: nat)
    requires CallFits(w, sp, inputs, params, outs, samples) && o < |outs|
    ensures var m, args := Marshalled(w, sp, inputs, params, outs, samples), Args(sp, inputs, params, outs, samples);
      TellsOf(ReadOutputFrame(m, WordAt(args.outputsPtr + 12 * o)), sp, outs, samples, o)
  {
    hide Marshalled, Needed, At, OutputAddress, Room;
    OutputRecordTold(w, sp, inputs, params, outs, samples, o);
  }

  // The area of an output ends where that of the next begins, and that of the last at sp.
  lemma AreaAfter(sp: nat, outs: seq<nat>, samples: nat, o: nat, frame: OutputFrame)
    requires TellsOf(frame, sp, outs, samples, o)
    ensures AreaEnd(frame) == if o + 1 < |outs| then OutputAddress(sp, outs, samples, o + 1, 0) else sp
  {
    OutputNext(outs, samples, 0, o);
    Reassociate(samples, outs[o]);
    assert outs[..|outs|] == outs;
    hide Room;
  }

  /** A call takes the least multiple of 16 bytes that holds its records, of 12 bytes for each input
      and output and 8 for each parameter, and 4 bytes for every sample. */
  lemma NeededIsTight(inputs: seq<Input>, params: seq<Samples>, outs: seq<nat>, samples: nat)
    ensures var bytes := 12 * (|inputs| + |outs|) + 8 * |params| +
        4 * |Flat(inputs)| + 4 * |Concat(params)| + 4 * (samples * Sum(outs));
      var needed := Needed(inputs, params, outs, samples);
      needed % 16 == 0 && bytes <= needed < bytes + 16
  {
    RoomIsProduct(outs, samples);
    hide Flat, Concat, Room, Sum;
  }

  /** The constructor makes as many views as fit on the stack beside 16 bytes, but no more than 64. */
  lemma ViewsThatFit(stackSize: nat, bytesPerChannel: nat)
    requires stackSize >= 16 && bytesPerChannel > 0
    ensures var n := ViewCount(stackSize, bytesPerChannel);
      && n <= 64 && n * bytesPerChannel + 16 <= stackSize
      && (n < 64 ==> stackSize < (n + 1) * bytesPerChannel + 16)
  {
    var q := (stackSize - 16) / bytesPerChannel;
    assert q * bytesPerChannel <= stackSize - 16 < q * bytesPerChannel + bytesPerChannel;
    Distribute(bytesPerChannel, q, 1);
    MulMonotone(ViewCount(stackSize, bytesPerChannel), q, bytesPerChannel);
  }

  lemma {:induction false} RoomAt(outs: seq<nat>, samples: nat, o: nat)
    requires o < |outs| && samples > 0
    ensures Room(outs[..o], samples) + samples * outs[o] <= Room(outs, samples)
    ensures outs[o] <= samples * outs[o]
  {
    MulMonotone(1, samples, outs[o]);
    if o < |outs| - 1 {
      var front := outs[..|outs| - 1];
      RoomAt(front, samples, o);
      assert front[..o] == outs[..o];
    }
  }

  /** The view an output channel is read back from starts where the callback was told to put the
      channel if and only if the views' block is a multiple of 16 bytes. */
  lemma SchemesAgreeIff(sp: nat, count: nat, samples: nat, outs: seq<nat>, o: nat, c: nat)
    requires sp % 16 == 0 && count * (4 * samples) <= sp
    requires o < |outs| && c < outs[o] && Sum(outs) <= count
    ensures 4 * ViewAt(sp, count, samples, ViewIndex(outs, o, c)).first == OutputAddress(sp, outs, samples, o, c)
            <==> count * (4 * samples) % 16 == 0
  {
    var all, before := Sum(outs), Sum(outs[..o]);
    RoomIsProduct(outs, samples);
    RoomIsProduct(outs[..o], samples);
    assert ViewIndex(outs, o, c) == all - 1 - (before + c);
    hide Sum, Room, ViewIndex;
    ViewDistance(sp, count, samples, all, before, c);
  }

  lemma ViewDistance(sp: nat, count: nat, samples: nat, all: nat, before: nat, c: nat)
    requires sp % 16 == 0 && count * (4 * samples) <= sp && before + c < all <= count
    ensures 4 * ViewAt(sp, count, samples, all - 1 - (before + c)).first ==
              sp - 4 * (samples * all) + 4 * (samples * before) + 4 * samples * c
            <==> count * (4 * samples) % 16 == 0
  {
    var room := count * (4 * samples);
    var base := StackAlloc(sp, room);
    Distances(samples, count, all, before, c);
    AlignedIff(sp, room);
    var above := (count - (all - (before + c))) * samples;
    assert ViewAt(sp, count, samples, all - 1 - (before + c)).first == base / 4 + above;
    hide StackAlloc, ViewAt;
    assert 4 * (base / 4 + above) == base + 4 * above;
  }

  lemma AlignedIff(sp: nat, room: nat)
    requires sp % 16 == 0 && room <= sp
    ensures StackAlloc(sp, room) == sp - room <==> room % 16 == 0
    ensures StackAlloc(sp, room) % 4 == 0
  {
    if room % 16 == 0 {
      StackAllocExact(sp, room);
    }
    assert sp == 16 * (sp / 16);
  }

  lemma Distances(samples: int, count: int, all: int, before: int, c: int)
    ensures 4 * ((count - (all - (before + c))) * samples) ==
            count * (4 * samples) - 4 * (samples * all) + 4 * (samples * before) + 4 * samples * c
  {
    Distribute(samples, count, -(all - (before + c)));
    Distribute(samples, all, -(before + c));
    Distribute(samples, before, c);
    Reassociate(samples, c);
    Reassociate(samples, count);
  }

  // What is read back for channel c of output o are the samples of a channel at an address
  ghost predicate ComesFrom(after: seq<Word>, views: seq<View>, outs: seq<nat>, o: nat, c: nat, samples: nat,
                            data: nat)
    requires forall n | 0 <= n < |views| :: views[n].first + views[n].len <= |after|
    requires Sum(outs) <= |views| && o < |outs| && c < outs[o]
  {
    ReadOutputs(after, views, outs)[o][c] == Slice(after, WordAt(data) + samples * c, samples)
  }

  /** When it is, every output buffer receives exactly the samples the callback left at the
      address the record of that output gave it. */
  lemma OutputsReadWhereWritten(w: seq<Word>, sp: nat, inputs: seq<Input>, params: seq<Samples>, outs: seq<nat>,
                                samples: nat, views: seq<View>, after: seq<Word>, o: nat, c: nat)
    requires CallFits(w, sp, inputs, params, outs, samples)
    requires |views| * (4 * samples) <= sp && |views| * (4 * samples) % 16 == 0
    requires forall n | 0 <= n < |views| :: views[n] == ViewAt(sp, |views|, samples, n)
    requires forall n | 0 <= n < |views| :: views[n].first + views[n].len <= |after|
    requires Sum(outs) <= |views| && o < |outs| && c < outs[o]
    ensures ComesFrom(after, views, outs, o, c, samples, ToldAddress(w, sp, inputs, params, outs, samples, o))
  {
    hide Marshalled, ToldAddress, OutputRecord, ReadOutputs, ReadOutput, Room, Sum, Needed;
    OutputRecordTold(w, sp, inputs, params, outs, samples, o);
    OutputsReadAtAddress(sp, outs, samples, views, after, o, c);
  }

  lemma OutputsReadAtAddress(sp: nat, outs: seq<nat>, samples: nat, views: seq<View>, after: seq<Word>, o: nat, c: nat)
    requires sp % 16 == 0 && |views| * (4 * samples) <= sp && |views| * (4 * samples) % 16 == 0
    requires forall n | 0 <= n < |views| :: views[n] == ViewAt(sp, |views|, samples, n)
    requires forall n | 0 <= n < |views| :: views[n].first + views[n].len <= |after|
    requires Sum(outs) <= |views| && o < |outs| && c < outs[o]
    requires OutputAddress(sp, outs, samples, o, 0) >= 0
    ensures ReadOutputs(after, views, outs)[o][c] ==
            Slice(after, WordAt(OutputAddress(sp, outs, samples, o, 0)) + samples * c, samples)
  {
    SchemesAgreeIff(sp, |views|, samples, outs, o, c);
    var n := ViewIndex(outs, o, c);
    ReadOutputsAt(after, views, outs, o, c);
    assert views[n] == ViewAt(sp, |views|, samples, n);
    AddressStep(sp, outs, samples, o, c);
    hide ReadOutputs, ReadOutput, Sum, Room, OutputAddress;
    AddressInWords(views[n].first, OutputAddress(sp, outs, samples, o, 0), samples, c);
  }

  lemma ReadOutputsAt(after: seq<Word>, views: seq<View>, outs: seq<nat>, o: nat, c: nat)
    requires forall n | 0 <= n < |views| :: views[n].first + views[n].len <= |after|
    requires Sum(outs) <= |views| && o < |outs| && c < outs[o]
    ensures ReadOutputs(after, views, outs)[o][c] == ReadChannel(after, views[ViewIndex(outs, o, c)])
  {
  }

  lemma AddressStep(sp: nat, outs: seq<nat>, samples: nat, o: nat, c: nat)
    requires o < |outs|
    ensures OutputAddress(sp, outs, samples, o, c) == OutputAddress(sp, outs, samples, o, 0) + 4 * samples * c
  {
  }

  lemma AddressInWords(first: nat, start: nat, samples: nat, c: nat)
    requires 4 * first == start + 4 * samples * c
    ensures first == WordAt(start) + samples * c
  {
    Reassociate(samples, c);
    WordOf(first - samples * c);
  }
}
