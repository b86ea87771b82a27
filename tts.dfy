/** The text-to-speech service's buffer: the texts received and the audio
    fragments synthesised for them, the check that every text has its fragment,
    and the final audio, which plays the fragments in order of their text's id.
    Texts are cut into token slices of bounded length before synthesis. The
    tokenizer, the synthesiser and the audio file are oracles or left out. */
module Tts {
  import opened Wrappers
  import opened PyStr
  import opened Sorting

  /** A fragment of synthesised audio and the id of the text it was made from. */
  datatype Fragment = Fragment(content: seq<real>, id: int)

  function FragmentId(f: Fragment): int { f.id }

  /** The audio samples of each fragment. */
  function Contents(fs: seq<Fragment>): (r: seq<seq<real>>)
    ensures |r| == |fs| && forall i :: 0 <= i < |fs| ==> r[i] == fs[i].content
  {
    seq(|fs|, i requires 0 <= i < |fs| => fs[i].content)
  }

  /** The fragments in playing order: sorted by id, stably. */
  function PlayingOrder(fs: seq<Fragment>): seq<Fragment> {
    SortBy(fs, FragmentId)
  }

  /** The playing order has ascending ids, holds the same fragments, and keeps
      the arrival order of the fragments of one text. */
  lemma PlayingOrderSpec(fs: seq<Fragment>)
    ensures var o := PlayingOrder(fs);
            && SortedBy(o, FragmentId)
            && multiset(o) == multiset(fs)
            && forall k :: WithKey(o, FragmentId, k) == WithKey(fs, FragmentId, k)
  {
    SortBySortedPermutation(fs, FragmentId);
    forall k ensures WithKey(PlayingOrder(fs), FragmentId, k) == WithKey(fs, FragmentId, k) {
      SortByStable(fs, FragmentId, k);
    }
  }

  /** Fragments that arrive out of order are played by id. */
  lemma LaterIdPlaysLast(a: seq<real>, b: seq<real>)
    ensures PlayingOrder([Fragment(b, 2), Fragment(a, 1)]) == [Fragment(a, 1), Fragment(b, 2)]
  {
    var fs := [Fragment(b, 2), Fragment(a, 1)];
    assert fs[..1] == [Fragment(b, 2)];
    assert fs[..1][..0] == [];
    assert SortBy(fs[..1], FragmentId) == [Fragment(b, 2)];
  }

  class AudioBuffer {
    /** The texts received, with their ids. */
    var texts: seq<(string, int)>
    /** The fragments synthesised, in arrival order. */
    var fragments: seq<Fragment>

    constructor ()
      ensures texts == [] && fragments == []
    {
      texts := [];
      fragments := [];
    }

    /** `is_complete`: as many fragments as texts, and at least one text. */
    function IsComplete(): (r: bool)
      reads this
      ensures r ==> texts != [] && fragments != []
    {
      |fragments| == |texts| && |texts| > 0
    }

    /** `add_text`. A complete buffer is no longer complete. */
    method AddText(text: string, id: int)
      modifies this
      ensures texts == old(texts) + [(text, id)] && fragments == old(fragments)
      ensures old(IsComplete()) ==> !IsComplete()
    {
      texts := texts + [(text, id)];
    }

    /** `add_fragment`. */
    method AddFragment(fragment: Fragment)
      modifies this
      ensures fragments == old(fragments) + [fragment] && texts == old(texts)
    {
      fragments := fragments + [fragment];
    }

    /** `get_audio`: the fragments' samples, concatenated in playing order;
        concatenating no fragment at all raises ValueError. */
    method GetAudio() returns (r: Result<seq<real>>)
      ensures fragments == [] ==> r == Failure(ValueError)
      ensures fragments != [] ==> r == Success(Concat(Contents(PlayingOrder(fragments))))
    {
      if fragments == [] {
        return Failure(ValueError);
      }
      var sorted := SortBy(fragments, FragmentId);
      var parts := seq(|sorted|, i requires 0 <= i < |sorted| => sorted[i].content);
      r := Success(Concat(parts));
    }

    /** `clear`. */
    method Clear()
      modifies this
      ensures texts == [] && fragments == []
      ensures !IsComplete()
    {
      texts := [];
      fragments := [];
    }
  }

  // ------------------------------------------------------------------ token slices

  /** Consecutive slices of `m` tokens, the last one possibly shorter. */
  function Slices<T>(tokens: seq<T>, m: nat): seq<seq<T>>
    requires m > 0
    decreases |tokens|
  {
    if tokens == [] then []
    else if |tokens| <= m then [tokens]
    else [tokens[..m]] + Slices(tokens[m..], m)
  }

  /** The slices put back together are the tokens; each holds between one and
      `m` tokens, and all but the last exactly `m`. */
  lemma {:induction false} SlicesSpec<T>(tokens: seq<T>, m: nat)
    requires m > 0
    ensures Concat(Slices(tokens, m)) == tokens
    ensures forall i :: 0 <= i < |Slices(tokens, m)| ==> 1 <= |Slices(tokens, m)[i]| <= m
    ensures forall i :: 0 <= i < |Slices(tokens, m)| - 1 ==> |Slices(tokens, m)[i]| == m
    decreases |tokens|
  {
    if tokens != [] {
      if |tokens| <= m {
        ConcatSingle(tokens);
      } else {
        var rest := Slices(tokens[m..], m);
        SlicesSpec(tokens[m..], m);
        ConcatAppend([tokens[..m]], rest);
        ConcatSingle(tokens[..m]);
        assert tokens == tokens[..m] + tokens[m..];
        assert forall i :: 1 <= i < |rest| + 1 ==> ([tokens[..m]] + rest)[i] == rest[i - 1];
      }
    }
  }

  /** `range(0, len(tokens), max_tokens)` sliced: a step of 0 raises
      ValueError, a negative step gives no slice. */
  method SplitTokens<T>(tokens: seq<T>, maxTokens: int) returns (r: Result<seq<seq<T>>>)
    ensures maxTokens == 0 ==> r == Failure(ValueError)
    ensures maxTokens < 0 ==> r == Success([])
    ensures maxTokens > 0 ==> r == Success(Slices(tokens, maxTokens))
  {
    if maxTokens == 0 {
      return Failure(ValueError);
    }
    if maxTokens < 0 {
      return Success([]);
    }
    var chunks: seq<seq<T>> := [];
    var i := 0;
    while i < |tokens|
      invariant 0 <= i
      invariant i <= |tokens| ==> chunks + Slices(tokens[i..], maxTokens) == Slices(tokens, maxTokens)
      invariant i > |tokens| ==> chunks == Slices(tokens, maxTokens)
      decreases |tokens| - i
    {
      var end := if i + maxTokens < |tokens| then i + maxTokens else |tokens|;
      var chunkTokens := tokens[i..end];
      ghost var rest := tokens[i..];
      if |rest| <= maxTokens {
        assert chunkTokens == rest;
        assert Slices(rest, maxTokens) == [rest];
      } else {
        assert chunkTokens == rest[..maxTokens];
        assert rest[maxTokens..] == tokens[i + maxTokens..];
      }
      chunks := chunks + [chunkTokens];
      i := i + maxTokens;
    }
    if i == |tokens| {
      assert tokens[i..] == [];
      assert chunks + [] == chunks;
    }
    r := Success(chunks);
  }

  /** The token budget of one synthesis call. */
  const MaxTokens := 400

  /** `split_text_into_chunks`: the text's tokens sliced and each slice decoded. */
  method SplitTextIntoChunks(text: string, maxTokens: int, encode: string -> seq<int>, decode: seq<int> -> string)
    returns (r: Result<seq<string>>)
    ensures maxTokens == 0 ==> r == Failure(ValueError)
    ensures maxTokens < 0 ==> r == Success([])
    ensures maxTokens > 0 ==> r == Success(Decoded(Slices(encode(text), maxTokens), decode))
  {
    var slices := SplitTokens(encode(text), maxTokens);
    if slices.Failure? {
      return Failure(slices.error);
    }
    r := Success(Decoded(slices.value, decode));
  }

  function Decoded(slices: seq<seq<int>>, decode: seq<int> -> string): (r: seq<string>)
    ensures |r| == |slices| && forall i :: 0 <= i < |r| ==> r[i] == decode(slices[i])
  {
    seq(|slices|, i requires 0 <= i < |slices| => decode(slices[i]))
  }

  /** `generate_audio_fragment`: one fragment per slice of the text, each
      carrying the text's id. */
  method GenerateAudioFragment(buffer: AudioBuffer, text: string, id: int,
                               encode: string -> seq<int>, decode: seq<int> -> string, synthesize: string -> seq<real>)
    modifies buffer
    ensures var chunks := Decoded(Slices(encode(text), MaxTokens), decode);
            && buffer.texts == old(buffer.texts)
            && |buffer.fragments| == |old(buffer.fragments)| + |chunks|
            && buffer.fragments[..|old(buffer.fragments)|] == old(buffer.fragments)
            && forall i :: 0 <= i < |chunks| ==>
                 buffer.fragments[|old(buffer.fragments)| + i] == Fragment(synthesize(chunks[i]), id)
  {
    var textChunks := SplitTextIntoChunks(text, MaxTokens, encode, decode);
    var chunks := textChunks.value;
    ghost var before := buffer.fragments;
    for index := 0 to |chunks|
      invariant buffer.texts == old(buffer.texts)
      invariant |buffer.fragments| == |before| + index && buffer.fragments[..|before|] == before
      invariant forall i :: 0 <= i < index ==> buffer.fragments[|before| + i] == Fragment(synthesize(chunks[i]), id)
    {
      var fragment := synthesize(chunks[index]);
      buffer.AddFragment(Fragment(fragment, id));
    }
  }

  /** `save_audio`: the audio is taken, then the buffer is cleared; the file
      write is left out. */
  method SaveAudio(buffer: AudioBuffer) returns (r: Result<seq<real>>)
    modifies buffer
    ensures old(buffer.fragments) == [] ==> r == Failure(ValueError) && buffer.texts == old(buffer.texts) && buffer.fragments == []
    ensures old(buffer.fragments) != [] ==>
              r == Success(Concat(Contents(PlayingOrder(old(buffer.fragments))))) && buffer.texts == [] && buffer.fragments == []
  {
    r := buffer.GetAudio();
    if r.Failure? {
      return;
    }
    buffer.Clear();
  }

  datatype Status = Ok | Processing | Error

  /** The `GET /` endpoint: saves once complete. A complete buffer has
      fragments, so saving it never fails. */
  method SaveAudioFile(buffer: AudioBuffer) returns (status: Status, audio: Option<seq<real>>)
    modifies buffer
    ensures status != Error
    ensures status == Ok <==> old(buffer.IsComplete())
    ensures status == Ok ==> audio == Some(Concat(Contents(PlayingOrder(old(buffer.fragments))))) && buffer.texts == [] && buffer.fragments == []
    ensures status == Processing ==> audio == None && buffer.texts == old(buffer.texts) && buffer.fragments == old(buffer.fragments)
  {
    if buffer.IsComplete() {
      var r := SaveAudio(buffer);
      return Ok, Some(r.value);
    }
    return Processing, None;
  }
}
