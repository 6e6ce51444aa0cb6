/**
 The message chunking of `send_to_telegram`: a message longer than the
 4096-character limit is cut into consecutive slices, one per
 `range(0, len(message), max_len)` step, and each slice is sent on its own;
 a shorter message is sent whole.
 */
module Notify {

  /** `max_len`: the longest text one Telegram message may carry. */
  const MaxLen: nat := 4096

  function Min(a: int, b: int): int {
    if a <= b then a else b
  }

  /** The joined parts, `"".join(parts)`. */
  function Concat(parts: seq<string>): string {
    if parts == [] then [] else parts[0] + Concat(parts[1..])
  }

  /**
   `[message[i:i+max_len] for i in range(from, len(message), max_len)]`:
   one slice per step of the range, Python's slice stopping at the end.
   */
  function ChunksFrom(message: string, maxLen: nat, from: nat): seq<string>
    requires maxLen > 0
    decreases |message| - from
  {
    if from >= |message| then []
    else [message[from..Min(from + maxLen, |message|)]] + ChunksFrom(message, maxLen, from + maxLen)
  }

  function Chunks(message: string, maxLen: nat): seq<string>
    requires maxLen > 0
  {
    ChunksFrom(message, maxLen, 0)
  }

  /** Joining the slices taken from `from` on gives back the message from `from` on. */
  lemma {:induction false} ChunksFromConcat(message: string, maxLen: nat, from: nat)
    requires maxLen > 0 && from <= |message|
    ensures Concat(ChunksFrom(message, maxLen, from)) == message[from..]
    decreases |message| - from
  {
    if from < |message| {
      var stop := Min(from + maxLen, |message|);
      ChunksFromConcat(message, maxLen, stop);
      if stop == |message| {
        assert ChunksFrom(message, maxLen, from + maxLen) == [];
      }
      assert message[from..] == message[from..stop] + message[stop..];
    }
  }

  /** Every slice is at least one and at most `maxLen` characters, and every one but the last is exactly `maxLen`. */
  lemma {:induction false} ChunksFromSizes(message: string, maxLen: nat, from: nat)
    requires maxLen > 0
    ensures forall j :: 0 <= j < |ChunksFrom(message, maxLen, from)| ==>
              1 <= |ChunksFrom(message, maxLen, from)[j]| <= maxLen
    ensures forall j :: 0 <= j < |ChunksFrom(message, maxLen, from)| - 1 ==>
              |ChunksFrom(message, maxLen, from)[j]| == maxLen
    decreases |message| - from
  {
    if from < |message| {
      ChunksFromSizes(message, maxLen, from + maxLen);
      var parts := ChunksFrom(message, maxLen, from);
      var rest := ChunksFrom(message, maxLen, from + maxLen);
      assert parts == [message[from..Min(from + maxLen, |message|)]] + rest;
      if rest != [] {
        assert from + maxLen < |message|;
      }
      forall j | 1 <= j < |parts|
        ensures parts[j] == rest[j - 1]
      {
      }
    }
  }

  lemma MulStep(j: nat, k: nat)
    ensures (j + 1) * k == j * k + k
  {
  }

  /**
   There are `ceil((len(message) - from) / maxLen)` slices: none when
   nothing is left, else `n` slices with `(n - 1) * maxLen < len - from <= n * maxLen`.
   */
  lemma {:induction false} ChunksFromCount(message: string, maxLen: nat, from: nat)
    requires maxLen > 0 && from <= |message|
    ensures ChunksFrom(message, maxLen, from) == [] <==> from == |message|
    ensures (|ChunksFrom(message, maxLen, from)| - 1) * maxLen < |message| - from
            <= |ChunksFrom(message, maxLen, from)| * maxLen
    decreases |message| - from
  {
    if from < |message| {
      var rest := ChunksFrom(message, maxLen, from + maxLen);
      assert |ChunksFrom(message, maxLen, from)| == 1 + |rest|;
      if from + maxLen < |message| {
        ChunksFromCount(message, maxLen, from + maxLen);
        MulStep(|rest| - 1, maxLen);
        MulStep(|rest|, maxLen);
      } else {
        assert rest == [];
      }
    }
  }

  /** Slice `j` from `from` starts `j * maxLen` characters later: the comprehension's `message[i:i+max_len]` with `i = from + j * maxLen`. */
  lemma {:induction false} ChunkAt(message: string, maxLen: nat, from: nat, j: nat)
    requires maxLen > 0 && j < |ChunksFrom(message, maxLen, from)|
    ensures from + j * maxLen < |message|
    ensures ChunksFrom(message, maxLen, from)[j]
            == message[from + j * maxLen..Min(from + j * maxLen + maxLen, |message|)]
    decreases j
  {
    if j > 0 {
      ChunkAt(message, maxLen, from + maxLen, j - 1);
      MulStep(j - 1, maxLen);
    }
  }

  /** The texts `send_to_telegram` sends for one message: its slices when it is too long, else the message itself. */
  function MessageParts(message: string): seq<string> {
    if |message| > MaxLen then Chunks(message, MaxLen) else [message]
  }

  /**
   The parts join back into the message; a message within the limit is sent
   unsplit; a longer one is cut into `ceil(len / 4096)` parts, each of at
   most 4096 characters and all but the last of exactly 4096.
   */
  lemma MessagePartsSpec(message: string)
    ensures var parts := MessageParts(message);
      && Concat(parts) == message
      && (|message| <= MaxLen ==> parts == [message])
      && (|message| > MaxLen ==>
            && (|parts| - 1) * MaxLen < |message| <= |parts| * MaxLen
            && |parts| >= 2
            && (forall j :: 0 <= j < |parts| ==> 1 <= |parts[j]| <= MaxLen)
            && (forall j :: 0 <= j < |parts| - 1 ==> |parts[j]| == MaxLen))
  {
    if |message| > MaxLen {
      ChunksFromConcat(message, MaxLen, 0);
      ChunksFromSizes(message, MaxLen, 0);
      ChunksFromCount(message, MaxLen, 0);
      assert message[0..] == message;
    } else {
      assert [message][1..] == [];
      assert message + [] == message;
    }
  }

  /** Part `j` of a long message is `message[j * 4096 : j * 4096 + 4096]`, as the comprehension computes it. */
  lemma MessagePartAt(message: string, j: nat)
    requires |message| > MaxLen && j < |MessageParts(message)|
    ensures j * MaxLen < |message|
    ensures MessageParts(message)[j] == message[j * MaxLen..Min(j * MaxLen + MaxLen, |message|)]
  {
    ChunkAt(message, MaxLen, 0, j);
  }
}
