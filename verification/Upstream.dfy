/** callUpstream of internal/tts/service.go: the fold over the chunked response.  The HTTP
    exchange and the JSON and base64 decoders are inputs: a body is the sequence of what the
    decoder yields before it reports the end of the stream. */
module Upstream {

  type Bytes = seq<bv8>

  const CODE_CHUNK: int := 0
  const CODE_DONE: int := 20000000

  /** The `data` field: blank, a base64 fragment, or text that is not base64. */
  datatype Payload = Blank | Part(bytes: Bytes) | NotBase64

  datatype Item = Chunk(code: int, data: Payload) | Undecodable

  datatype Fault = Unreachable(error: string) | EndedEarly | BadChunk | BadAudio | NoAudio | UpstreamCode(code: int)

  datatype Result = Audio(bytes: Bytes) | Failed(fault: Fault)

  /** What came of the HTTP exchange: no usable response, within the timeout, or a body. */
  datatype Exchange = Unanswered(error: string) | Answered(items: seq<Item>)

  /** An item the loop goes on after. */
  predicate IsData(item: Item) {
    item.Chunk? && item.code == CODE_CHUNK && !item.data.NotBase64?
  }

  predicate AllData(items: seq<Item>) {
    forall i :: 0 <= i < |items| ==> IsData(items[i])
  }

  /** The audio carried by a run of data items. */
  function Joined(items: seq<Item>): Bytes
    requires AllData(items)
  {
    if items == [] then [] else
      BytesOf(items[0]) + Joined(items[1..])
  }

  function BytesOf(item: Item): Bytes
    requires IsData(item)
  {
    match item.data case Part(bytes) => bytes case _ => []
  }

  /** The loop on the rest of a body, after the fragments `audio`. */
  function Folded(items: seq<Item>, audio: Bytes): (r: Result)
    ensures r.Audio? ==> |r.bytes| > 0
    decreases |items|
  {
    if items == [] then Failed(EndedEarly)
    else if IsData(items[0]) then Folded(items[1..], audio + BytesOf(items[0]))
    else if items[0].Undecodable? then Failed(BadChunk)
    else if items[0].code == CODE_CHUNK then Failed(BadAudio)
    else if items[0].code != CODE_DONE then Failed(UpstreamCode(items[0].code))
    else if audio == [] then Failed(NoAudio)
    else Audio(audio)
  }

  function ResultOf(exchange: Exchange): (r: Result)
    ensures r.Audio? ==> |r.bytes| > 0
  {
    match exchange
    case Unanswered(error) => Failed(Unreachable(error))
    case Answered(items) => Folded(items, [])
  }

  /** Joining is concatenation, of the decoded fragments in order. */
  lemma {:induction false} JoinedConcatenates(a: seq<Item>, b: seq<Item>, bytes: Bytes)
    requires AllData(a) && AllData(b)
    ensures AllData(a + b) && Joined(a + b) == Joined(a) + Joined(b)
    ensures AllData([Chunk(0, Part(bytes))]) && Joined([Chunk(0, Part(bytes))]) == bytes
    ensures AllData([Chunk(0, Blank)]) && Joined([Chunk(0, Blank)]) == [] && Joined([]) == []
  {
    assert [Chunk(0, Part(bytes))][1..] == [] && bytes + [] == bytes;
    assert [Chunk(0, Blank)][1..] == [];
    if a == [] {
      assert a + b == b;
    } else {
      assert (a + b)[1..] == a[1..] + b;
      JoinedConcatenates(a[1..], b, bytes);
    }
  }

  /** The first item that is not data decides, at position n: `audio` came before it. */
  lemma {:induction false} FirstNonDataDecides(items: seq<Item>, audio: Bytes, n: nat)
    requires n < |items| && AllData(items[..n]) && !IsData(items[n])
    ensures var before := audio + Joined(items[..n]);
      Folded(items, audio) == Folded(items[n..], before)
    decreases |items|
  {
    if n == 0 {
      assert items[..0] == [] && audio + [] == audio;
    } else {
      var more := audio + BytesOf(items[0]);
      assert items[..n][0] == items[0] && items[..n][1..] == items[1..][..n - 1];
      assert items[1..][n - 1] == items[n] && items[1..][n - 1..] == items[n..];
      FirstNonDataDecides(items[1..], more, n - 1);
      assert more + Joined(items[1..][..n - 1]) == audio + Joined(items[..n]);
    }
  }

  lemma {:induction false} OnlyDataEndsEarly(items: seq<Item>, audio: Bytes)
    requires AllData(items)
    ensures Folded(items, audio) == Failed(EndedEarly)
    decreases |items|
  {
    if items != [] {
      OnlyDataEndsEarly(items[1..], audio + BytesOf(items[0]));
    }
  }

  lemma FirstNonData(items: seq<Item>) returns (n: nat)
    ensures n <= |items| && AllData(items[..n]) && (n < |items| ==> !IsData(items[n]))
  {
    n := 0;
    while n < |items| && IsData(items[n])
      invariant n <= |items| && AllData(items[..n])
    {
      n := n + 1;
    }
  }

  /** What each kind of item makes of a stream of which it is the first that is not data,
      whatever audio came before it. */
  lemma EachEnding(items: seq<Item>, n: nat)
    requires n < |items| && AllData(items[..n])
    ensures var result, item := ResultOf(Answered(items)), items[n];
      && (item.Undecodable? ==> result == Failed(BadChunk))
      && (item.Chunk? && item.code == 0 && item.data.NotBase64? ==> result == Failed(BadAudio))
      && (item.Chunk? && item.code != 0 && item.code != 20_000_000 ==> result == Failed(UpstreamCode(item.code)))
      && (item.Chunk? && item.code == 20_000_000 ==>
            result == if Joined(items[..n]) == [] then Failed(NoAudio) else Audio(Joined(items[..n])))
  {
    if !IsData(items[n]) {
      FirstNonDataDecides(items, [], n);
      assert [] + Joined(items[..n]) == Joined(items[..n]);
    }
  }

  /** The completion marker follows the data items of the stream, `n` of them, and some audio. */
  ghost predicate CompletesAt(items: seq<Item>, n: nat) {
    n < |items| && AllData(items[..n]) && items[n].Chunk? && items[n].code == 20_000_000 && Joined(items[..n]) != []
  }

  /** The call succeeds exactly when the marker follows data items with some audio, and then it
      gives all of that audio; otherwise the first other item says how it fails. */
  lemma SuccessIsCompletion(items: seq<Item>)
    ensures var result := ResultOf(Answered(items));
      && (result.Audio? <==> exists n: nat :: CompletesAt(items, n))
      && (forall n: nat :: CompletesAt(items, n) ==> result == Audio(Joined(items[..n])))
      && (AllData(items) ==> result == Failed(EndedEarly))
  {
    if AllData(items) {
      OnlyDataEndsEarly(items, []);
      assert forall n :: 0 <= n < |items| ==> IsData(items[n]);
    } else {
      var first := FirstNonData(items);
      assert items[..|items|] == items;
      EachEnding(items, first);
      assert !CompletesAt(items, first) ==> !ResultOf(Answered(items)).Audio?;
    }
    forall n: nat | CompletesAt(items, n)
      ensures ResultOf(Answered(items)) == Audio(Joined(items[..n]))
    {
      EachEnding(items, n);
    }
  }

  method CallUpstream(exchange: Exchange) returns (result: Result)
    ensures result == ResultOf(exchange)
    ensures exchange.Unanswered? ==> result == Failed(Unreachable(exchange.error))
    ensures exchange.Answered? ==>
      var items := exchange.items;
      && (AllData(items) ==> result == Failed(EndedEarly))
      && (result.Audio? <==> exists n: nat :: CompletesAt(items, n))
      && (forall n: nat :: CompletesAt(items, n) ==> result == Audio(Joined(items[..n])))
      && (forall n :: 0 <= n < |items| && AllData(items[..n]) ==>
            && (items[n].Undecodable? ==> result == Failed(BadChunk))
            && (items[n].Chunk? && items[n].code == 0 && items[n].data.NotBase64? ==> result == Failed(BadAudio))
            && (items[n].Chunk? && items[n].code != 0 && items[n].code != 20_000_000 ==>
                  result == Failed(UpstreamCode(items[n].code)))
            && (items[n].Chunk? && items[n].code == 20_000_000 && Joined(items[..n]) == [] ==>
                  result == Failed(NoAudio)))
  {
    if exchange.Unanswered? {
      return Failed(Unreachable(exchange.error));
    }
    result := ReadBody(exchange.items);
    SuccessIsCompletion(exchange.items);
    forall n | 0 <= n < |exchange.items| && AllData(exchange.items[..n]) {
      EachEnding(exchange.items, n);
    }
  }

  /** The decoding loop. */
  method ReadBody(stream: seq<Item>) returns (result: Result)
    ensures result == Folded(stream, [])
  {
    var audio: Bytes := [];
    var rest := stream;
    while rest != []
      invariant Folded(stream, []) == Folded(rest, audio)
      decreases |rest|
    {
      var item := rest[0];
      if item.Undecodable? {
        return Failed(BadChunk);
      }
      if item.code == CODE_CHUNK {
        match item.data
        case Blank => assert audio + [] == audio;
        case Part(bytes) => audio := audio + bytes;
        case NotBase64 => return Failed(BadAudio);
      } else if item.code == CODE_DONE {
        return if audio == [] then Failed(NoAudio) else Audio(audio);
      } else {
        return Failed(UpstreamCode(item.code));
      }
      rest := rest[1..];
    }
    return Failed(EndedEarly);
  }

  /** How the upstream cuts the audio into chunks, and what follows the completion marker,
      makes no difference. */
  lemma CuttingIsIrrelevant(a: seq<Item>, b: seq<Item>, more: seq<Item>)
    requires AllData(a) && AllData(b) && Joined(a) == Joined(b)
    ensures ResultOf(Answered(a + [Chunk(CODE_DONE, Blank)] + more))
         == ResultOf(Answered(b + [Chunk(CODE_DONE, Blank)]))
  {
    var first, second := a + [Chunk(CODE_DONE, Blank)] + more, b + [Chunk(CODE_DONE, Blank)];
    assert first[..|a|] == a && second[..|b|] == b;
    EachEnding(first, |a|);
    EachEnding(second, |b|);
  }
}
