/** Splitting an outgoing text into the messages the chat platform accepts. */
module Chunking {

  /** The platform's per-message character limit. */
  const Limit: nat := 2000

  function Concat(parts: seq<string>): string {
    if |parts| == 0 then "" else parts[0] + Concat(parts[1..])
  }

  /** Every chunk is at most `Limit` characters and every one but the last is exactly `Limit`. */
  ghost predicate WellCut(parts: seq<string>) {
    && (forall i :: 0 <= i < |parts| ==> |parts[i]| <= Limit)
    && (forall i :: 0 <= i < |parts| - 1 ==> |parts[i]| == Limit)
  }

  /** Consecutive `Limit`-sized slices of `text`, the last one possibly shorter. */
  function Slices(text: string): seq<string>
    decreases |text|
  {
    if |text| == 0 then []
    else if |text| <= Limit then [text]
    else [text[..Limit]] + Slices(text[Limit..])
  }

  /** The slices are non-empty, cut well, and give the text back when joined. */
  lemma {:induction false} SlicesSound(text: string)
    ensures Concat(Slices(text)) == text
    ensures WellCut(Slices(text))
    ensures forall i :: 0 <= i < |Slices(text)| ==> |Slices(text)[i]| > 0
    decreases |text|
  {
    if |text| > Limit {
      var rest := text[Limit..];
      SlicesSound(rest);
      assert Slices(text) == [text[..Limit]] + Slices(rest);
      assert Concat(Slices(text)) == text[..Limit] + Concat(Slices(rest));
      assert text == text[..Limit] + rest;
    } else if |text| > 0 {
      assert Concat(Slices(text)) == text + Concat([]);
    }
  }

  /** The messages sent for `text`, in order: the text itself when it fits,
      otherwise its slices. */
  function Chunks(text: string): (parts: seq<string>)
    ensures Concat(parts) == text
    ensures WellCut(parts)
    ensures |parts| >= 1
    ensures |text| <= Limit ==> parts == [text]
    ensures |text| > 0 ==> forall i :: 0 <= i < |parts| ==> |parts[i]| > 0
    ensures |text| > Limit ==> |parts| == (|text| + Limit - 1) / Limit
  {
    if |text| > Limit then
      SlicesSound(text);
      SliceCount(text);
      Slices(text)
    else
      assert Concat([text]) == text + Concat([]);
      [text]
  }

  /** The i-th slice is the text between offsets `i * Limit` and
      `(i + 1) * Limit`, clipped to the text: the list comprehension over
      `range(0, len(text), Limit)`. */
  lemma {:induction false} SliceAt(text: string, i: nat)
    requires i * Limit < |text|
    ensures i < |Slices(text)|
    ensures Slices(text)[i] == text[i * Limit .. Min((i + 1) * Limit, |text|)]
    decreases i
  {
    if i > 0 {
      var rest := text[Limit..];
      SliceAt(rest, i - 1);
      assert Slices(text) == [text[..Limit]] + Slices(rest);
      assert rest[(i - 1) * Limit .. Min(i * Limit, |rest|)] == text[i * Limit .. Min((i + 1) * Limit, |text|)];
    }
  }

  /** There are as many slices as offsets in `range(0, len(text), Limit)`. */
  lemma {:induction false} SliceCount(text: string)
    ensures |Slices(text)| == (|text| + Limit - 1) / Limit
    decreases |text|
  {
    if |text| > Limit {
      SliceCount(text[Limit..]);
    }
  }

  /** The first slice of a non-empty text and the slices of the remainder. */
  lemma FirstSlice(rest: string)
    requires |rest| > 0
    ensures Slices(rest) == [rest[..Min(Limit, |rest|)]] + Slices(rest[Min(Limit, |rest|)..])
  {
    if |rest| <= Limit {
      assert rest[..|rest|] == rest;
      assert rest[|rest|..] == "";
    }
  }

  function Min(a: int, b: int): int {
    if a <= b then a else b
  }

  /** `send_long_message`: the loop over `range(0, len(text), Limit)` that
      collects the messages sent. */
  method SendLongMessage(text: string) returns (sent: seq<string>)
    ensures sent == Chunks(text)
  {
    if |text| > Limit {
      sent := [];
      var i := 0;
      while i < |text|
        invariant 0 <= i <= |text|
        invariant sent + Slices(text[i..]) == Slices(text)
        decreases |text| - i
      {
        var next := Min(i + Limit, |text|);
        var piece := text[i..next];
        ghost var rest := text[i..];
        FirstSlice(rest);
        assert rest[..next - i] == piece;
        assert rest[next - i..] == text[next..];
        sent := sent + [piece];
        i := next;
      }
      assert text[|text|..] == "";
    } else {
      sent := [text];
    }
  }
}
