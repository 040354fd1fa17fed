/**
 The walk over a sound file's chunks (firmware/main/app_tasks.c, pcm_of and plays_as_is).
 */
module WavWalk {

  type Byte = b: nat | b < 256

  const HEADER_MIN: nat := 44
  const FMT_MIN: nat := 16
  const SOUND_CAP: nat := 131072
  const SAMPLE_HZ: nat := 16000
  const SAMPLE_BITS: nat := 16

  function U16(w: seq<Byte>, at: nat): (r: nat)
    requires at + 2 <= |w|
    ensures r < 0x1_0000
  {
    var low: nat, high: nat := w[at], w[at + 1];
    low + 256 * high
  }

  function U32(w: seq<Byte>, at: nat): (r: nat)
    requires at + 4 <= |w|
    ensures r < 0x1_0000_0000
  {
    U16(w, at) + 65536 * U16(w, at + 2)
  }

  const RIFF: seq<Byte> := [0x52, 0x49, 0x46, 0x46]
  const WAVE: seq<Byte> := [0x57, 0x41, 0x56, 0x45]
  const FMT: seq<Byte> := [0x66, 0x6D, 0x74, 0x20]
  const DATA: seq<Byte> := [0x64, 0x61, 0x74, 0x61]

  /** plays_as_is, on a fmt body that starts at `at`: 16 kHz 16-bit mono PCM. */
  predicate PlaysAsIs(w: seq<Byte>, at: nat)
    requires at + FMT_MIN <= |w|
  {
    U16(w, at) == 1 && U16(w, at + 2) == 1 && U32(w, at + 4) == SAMPLE_HZ && U16(w, at + 14) == SAMPLE_BITS
  }

  // ----- the chunks of a file ----------------------------------------------------------------------

  /** A chunk header at `at`; its body starts eight bytes further. */
  datatype Chunk = Chunk(at: nat, id: seq<Byte>, size: nat)

  function ChunkAt(w: seq<Byte>, at: nat): (c: Chunk)
    requires at + 8 <= |w|
    ensures c.size < 0x1_0000_0000
  {
    Chunk(at, w[at..at + 4], U32(w, at + 4))
  }

  /** How much of a chunk's body the file holds. */
  function Have(w: seq<Byte>, c: Chunk): int { |w| - (c.at + 8) }

  /** The chunks one after another, each starting past the one before and its pad byte, up to the
      first whose body the file cannot hold. */
  function Chunks(w: seq<Byte>, at: nat): seq<Chunk>
    decreases |w| - at
  {
    if at + 8 > |w| then []
    else
      var c := ChunkAt(w, at);
      if c.size > Have(w, c) then [c] else [c] + Chunks(w, at + 8 + c.size + c.size % 2)
  }

  /** A format chunk that is whole and playable. */
  predicate Playable(w: seq<Byte>, c: Chunk) {
    c.size >= FMT_MIN && Have(w, c) >= FMT_MIN && PlaysAsIs(w, c.at + 8)
  }

  /** The latest format chunk before place `d` says the file plays. */
  predicate PlaysBefore(w: seq<Byte>, cs: seq<Chunk>, d: nat)
    requires d <= |cs|
  {
    d > 0 && (if cs[d - 1].id == FMT then Playable(w, cs[d - 1]) else PlaysBefore(w, cs, d - 1))
  }

  /** The place of the first data chunk, past the end if there is none. */
  function DataPlace(cs: seq<Chunk>): (d: nat)
    ensures d <= |cs| && forall k :: 0 <= k < d ==> cs[k].id != DATA
    ensures d < |cs| ==> cs[d].id == DATA
  {
    if cs == [] || cs[0].id == DATA then 0 else 1 + DataPlace(cs[1..])
  }

  predicate IsWave(w: seq<Byte>) {
    |w| >= HEADER_MIN && w[..4] == RIFF && w[8..12] == WAVE
  }

  function Less(a: nat, b: nat): nat { if a < b then a else b }

  // ----- the walk ----------------------------------------------------------------------------------

  /** A chunk of the list lies inside the file, header and all. */
  lemma {:induction false} ChunkInside(w: seq<Byte>, at: nat, k: nat)
    requires k < |Chunks(w, at)|
    ensures var c := Chunks(w, at)[k]; c.at + 8 <= |w| && c == ChunkAt(w, c.at)
    decreases k
  {
    if k > 0 {
      var c := ChunkAt(w, at);
      ChunkInside(w, at + 8 + c.size + c.size % 2, k - 1);
    }
  }

  lemma ChunksFrom(w: seq<Byte>, at: nat)
    requires at + 8 <= |w|
    ensures var c := ChunkAt(w, at);
            Chunks(w, at) == [c] + if c.size > Have(w, c) then [] else Chunks(w, at + 8 + c.size + c.size % 2)
  {
  }

  /** The walk has come to `at` with `k` chunks behind it. */
  ghost predicate Walked(w: seq<Byte>, at: nat, k: nat) {
    k <= |Chunks(w, 12)| && Chunks(w, 12)[k..] == Chunks(w, at)
  }

  lemma WalkStep(w: seq<Byte>, at: nat, k: nat)
    requires Walked(w, at, k) && at + 8 <= |w|
    ensures k < |Chunks(w, 12)| && Chunks(w, 12)[k] == ChunkAt(w, at)
    ensures var c := ChunkAt(w, at);
            if c.size > Have(w, c) then |Chunks(w, 12)| == k + 1 else Walked(w, at + 8 + c.size + c.size % 2, k + 1)
  {
    hide Chunks;
    var cs, c := Chunks(w, 12), ChunkAt(w, at);
    ChunksFrom(w, at);
    assert cs[k..][0] == cs[k] && cs[k..][1..] == cs[k + 1..];
  }

  lemma WalkEnds(w: seq<Byte>, at: nat, k: nat)
    requires Walked(w, at, k) && at + 8 > |w|
    ensures k == |Chunks(w, 12)|
  {
  }

  lemma WalkStarts(w: seq<Byte>)
    ensures Walked(w, 12, 0)
  {
  }

  lemma PlaysLater(w: seq<Byte>, cs: seq<Chunk>, d: nat)
    requires d < |cs|
    ensures PlaysBefore(w, cs, d + 1) == if cs[d].id == FMT then Playable(w, cs[d]) else PlaysBefore(w, cs, d)
  {
  }

  lemma PlayableIs(w: seq<Byte>, c: Chunk)
    requires c.at + 8 <= |w|
    ensures Playable(w, c) == (c.size >= FMT_MIN && Have(w, c) >= FMT_MIN && PlaysAsIs(w, c.at + 8))
  {
  }

  lemma NothingPlays(w: seq<Byte>, cs: seq<Chunk>)
    ensures !PlaysBefore(w, cs, 0)
  {
  }

  /** pcm_of, on a file no longer than the sound cap.  The samples it returns are those of the first
      data chunk, as far as chunk and file both go; there are none unless the latest format chunk
      before it is the playable one.  Its 32-bit cursor never wraps. */
  method PcmOf(w: seq<Byte>) returns (start: nat, samples: nat)
    requires |w| <= SOUND_CAP
    ensures !IsWave(w) ==> samples == 0
    ensures start + 2 * samples <= |w|
    ensures IsWave(w) ==>
      var cs, d := Chunks(w, 12), DataPlace(Chunks(w, 12));
      if d == |cs| then samples == 0
      else && cs[d].at + 8 <= |w| && start == cs[d].at + 8
           && samples == if PlaysBefore(w, cs, d) then Less(cs[d].size, Have(w, cs[d])) / 2 else 0
  {
    hide PlaysAsIs, U16, U32, DataPlace, PlaysBefore, Playable, Chunks, Walked;
    start, samples := 0, 0;
    if |w| < HEADER_MIN || w[..4] != RIFF || w[8..12] != WAVE { return; }
    ghost var cs := Chunks(w, 12);
    ghost var k: nat := 0;
    var plays := false;
    var at := 12;
    WalkStarts(w);
    NothingPlays(w, cs);
    while at + 8 <= |w|
      invariant at <= |w| + 1
      invariant k <= |cs| && Walked(w, at, k)
      invariant forall i :: 0 <= i < k ==> cs[i].id != DATA
      invariant plays == PlaysBefore(w, cs, k)
      decreases |w| - at
    {
      var size := U32(w, at + 4);
      var body := at + 8;
      var have := |w| - (at + 8);
      ghost var c := ChunkAt(w, at);
      WalkStep(w, at, k);
      if w[at..at + 4] == FMT {
        plays := size >= FMT_MIN && have >= FMT_MIN && PlaysAsIs(w, body);
        PlayableIs(w, c);
      } else if w[at..at + 4] == DATA {
        start := body;
        samples := if plays then Less(size, have) / 2 else 0;
        FirstData(cs, k);
        return;
      }
      PlaysLater(w, cs, k);
      assert DATA != FMT by { assert DATA[0] != FMT[0]; }
      if size > have {
        NoData(cs);
        return;
      }
      // The sum the cursor moves by stays far under 2^32.
      assert at + 8 + size + size % 2 < 0x1_0000_0000;
      at := at + 8 + size + size % 2;
      k := k + 1;
    }
    WalkEnds(w, at, k);
    NoData(cs);
  }

  lemma FirstData(cs: seq<Chunk>, k: nat)
    requires k < |cs| && cs[k].id == DATA && forall i :: 0 <= i < k ==> cs[i].id != DATA
    ensures DataPlace(cs) == k
  {
  }

  lemma NoData(cs: seq<Chunk>)
    requires forall i :: 0 <= i < |cs| ==> cs[i].id != DATA
    ensures DataPlace(cs) == |cs|
  {
  }

  // ----- a file as it is written -----------------------------------------------------------------

  datatype Part = Part(id: seq<Byte>, body: seq<Byte>)

  predicate Writable(p: Part) { |p.id| == 4 && |p.body| < 0x1_0000_0000 }

  function Size32(n: nat): (r: seq<Byte>)
    requires n < 0x1_0000_0000
    ensures |r| == 4
  {
    [n % 256, n / 256 % 256, n / 65536 % 256, n / 16777216]
  }

  /** A chunk as a RIFF writer lays it out, a pad byte after an odd body. */
  function Laid(p: Part): (r: seq<Byte>)
    requires Writable(p)
    ensures |r| == 8 + |p.body| + |p.body| % 2
  {
    p.id + Size32(|p.body|) + p.body + (if |p.body| % 2 == 1 then [0] else [])
  }

  function LaidAll(parts: seq<Part>): seq<Byte>
    requires forall k :: 0 <= k < |parts| ==> Writable(parts[k])
  {
    if parts == [] then [] else Laid(parts[0]) + LaidAll(parts[1..])
  }

  lemma SizeBack(w: seq<Byte>, at: nat, n: nat)
    requires n < 0x1_0000_0000 && at + 4 <= |w| && w[at..at + 4] == Size32(n)
    ensures U32(w, at) == n
  {
    var four := w[at..at + 4];
    assert four[0] == w[at] && four[1] == w[at + 1] && four[2] == w[at + 2] && four[3] == w[at + 3];
    assert n == n % 256 + 256 * (n / 256 % 256) + 65536 * (n / 65536 % 256) + 16777216 * (n / 16777216) by {
      assert n / 65536 == n / 256 / 256 && n / 16777216 == n / 65536 / 256;
    }
  }

  /** The chunk at the front of what was written is found, body and all, and the walk goes on behind
      its pad byte. */
  lemma LaidIsRead(pre: seq<Byte>, p: Part, rest: seq<Byte>)
    requires Writable(p)
    ensures var w, at := pre + Laid(p) + rest, |pre|;
            && at + 8 + |p.body| <= |w|
            && ChunkAt(w, at) == Chunk(at, p.id, |p.body|)
            && w[at + 8..at + 8 + |p.body|] == p.body
            && Chunks(w, at) == [ChunkAt(w, at)] + Chunks(w, |pre + Laid(p)|)
  {
    hide U32, Size32, Laid, Chunks;
    var w, at := pre + Laid(p) + rest, |pre|;
    LaidParts(p);
    Inside(pre, Laid(p), rest, 0, 4);
    Inside(pre, Laid(p), rest, 4, 8);
    Inside(pre, Laid(p), rest, 8, 8 + |p.body|);
    SizeBack(w, at + 4, |p.body|);
    ChunksFrom(w, at);
  }

  lemma LaidParts(p: Part)
    requires Writable(p)
    ensures Laid(p)[0..4] == p.id && Laid(p)[4..8] == Size32(|p.body|) && Laid(p)[8..8 + |p.body|] == p.body
  {
  }

  lemma Inside(a: seq<Byte>, b: seq<Byte>, c: seq<Byte>, i: nat, j: nat)
    requires i <= j <= |b|
    ensures (a + b + c)[|a| + i..|a| + j] == b[i..j]
  {
  }

  predicate Carries(w: seq<Byte>, c: Chunk, p: Part) {
    && c.id == p.id && c.size == |p.body|
    && c.at + 8 + c.size <= |w| && w[c.at + 8..c.at + 8 + c.size] == p.body
  }

  /** What was written is what the walk finds: as many chunks, in their order, each with its name, its
      size and its body, whatever the bodies hold and wherever an odd one needed padding. */
  lemma {:induction false} WrittenIsFound(pre: seq<Byte>, parts: seq<Part>)
    requires forall i :: 0 <= i < |parts| ==> Writable(parts[i])
    ensures var w := pre + LaidAll(parts);
            && |Chunks(w, |pre|)| == |parts|
            && forall k :: 0 <= k < |parts| ==> Carries(w, Chunks(w, |pre|)[k], parts[k])
    decreases |parts|
  {
    hide U32, Size32, Laid, Carries;
    var w := pre + LaidAll(parts);
    if parts != [] {
      var more := pre + Laid(parts[0]);
      assert w == more + LaidAll(parts[1..]);
      FrontIsFound(pre, parts[0], LaidAll(parts[1..]));
      WrittenIsFound(more, parts[1..]);
      forall k | 0 <= k < |parts| ensures Carries(w, Chunks(w, |pre|)[k], parts[k]) {
        if k > 0 { assert Carries(w, Chunks(w, |more|)[k - 1], parts[1..][k - 1]); }
      }
    }
  }

  lemma FrontIsFound(pre: seq<Byte>, p: Part, rest: seq<Byte>)
    requires Writable(p)
    ensures var w := pre + Laid(p) + rest;
            && Chunks(w, |pre|) != [] && Carries(w, Chunks(w, |pre|)[0], p)
            && Chunks(w, |pre|)[1..] == Chunks(w, |pre + Laid(p)|)
  {
    hide U32, Size32, Laid;
    LaidIsRead(pre, p, rest);
  }

  /** The format that plays, byte by byte: PCM, one channel, 16000 samples a second, 16 bits. */
  lemma PlaysBytes(w: seq<Byte>, at: nat)
    requires at + FMT_MIN <= |w|
    ensures PlaysAsIs(w, at) <==>
      && w[at] == 1 && w[at + 1] == 0 && w[at + 2] == 1 && w[at + 3] == 0
      && w[at + 4] == 0x80 && w[at + 5] == 0x3E && w[at + 6] == 0 && w[at + 7] == 0
      && w[at + 14] == 16 && w[at + 15] == 0
  {
  }

  /** A file plays from a data chunk when some format chunk before it is playable and none after that
      one is there to say otherwise. */
  lemma {:induction false} PlaysBeforeIs(w: seq<Byte>, cs: seq<Chunk>, d: nat)
    requires d <= |cs|
    ensures PlaysBefore(w, cs, d) <==>
      exists k :: 0 <= k < d && cs[k].id == FMT && Playable(w, cs[k]) && forall j :: k < j < d ==> cs[j].id != FMT
    decreases d
  {
    hide Playable;
    if d > 0 {
      PlaysBeforeIs(w, cs, d - 1);
      if cs[d - 1].id == FMT && Playable(w, cs[d - 1]) {
        assert cs[d - 1].id == FMT;
      }
    }
  }
}
