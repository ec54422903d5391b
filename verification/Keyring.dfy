/** Credentials in the operating system's keyring: one sealed string cut over numbered entries, each
    but the last ending in a continuation marker. */
module Keyring {
  import opened Util

  const MARKER: seq<byte> := [60, 77, 79, 82, 69, 62]    // "<MORE>"

  datatype Platform = Windows | Other

  function EntryLimit(p: Platform): nat {
    if p.Windows? then 1024 else 128 * 1024
  }

  function StepSize(p: Platform): (step: nat)
    ensures step > 0 && step + |MARKER| == EntryLimit(p)
  {
    EntryLimit(p) - |MARKER|
  }

  /** The keyring's entries of one prefix, by number. */
  type Ring = map<nat, seq<byte>>

  predicate Marked(chunk: seq<byte>) {
    |MARKER| <= |chunk| && chunk[|chunk| - |MARKER|..] == MARKER
  }

  function Unmarked(chunk: seq<byte>): seq<byte>
    requires Marked(chunk)
  {
    chunk[..|chunk| - |MARKER|]
  }

  // ----- writing -----

  /** The entries that storing `sealed` writes. */
  function Chunks(sealed: seq<byte>, step: nat): seq<seq<byte>>
    requires step > 0
  {
    if sealed == [] then []
    else if step <= |sealed| then [sealed[..step] + MARKER] + Chunks(sealed[step..], step)
    else [sealed]
  }

  function Put(ring: Ring, at: nat, chunks: seq<seq<byte>>): Ring
    decreases chunks
  {
    if chunks == [] then ring else Put(ring[at := chunks[0]], at + 1, chunks[1..])
  }

  lemma {:induction false} PutAt(ring: Ring, at: nat, chunks: seq<seq<byte>>, k: nat)
    ensures at <= k < at + |chunks| ==> k in Put(ring, at, chunks) && Put(ring, at, chunks)[k] == chunks[k - at]
    ensures !(at <= k < at + |chunks|) ==> (k in Put(ring, at, chunks) <==> k in ring)
    ensures !(at <= k < at + |chunks|) && k in ring ==> Put(ring, at, chunks)[k] == ring[k]
    decreases chunks
  {
    if chunks != [] { PutAt(ring[at := chunks[0]], at + 1, chunks[1..], k); }
  }

  lemma {:induction false} PutSnoc(ring: Ring, at: nat, chunks: seq<seq<byte>>, c: seq<byte>)
    ensures Put(ring, at, chunks + [c]) == Put(ring, at, chunks)[at + |chunks| := c]
    decreases chunks
  {
    if chunks == [] {
      assert ([] + [c])[1..] == [];
    } else {
      assert (chunks + [c])[1..] == chunks[1..] + [c];
      PutSnoc(ring[at := chunks[0]], at + 1, chunks[1..], c);
    }
  }

  /** The entries, put together by hand: all but the last are as long as the platform allows, 1024 or
      131072 bytes, and end in "<MORE>"; taking those ends away gives the string back; and the last one
      is shorter than the others are before their marker, unless the length is a multiple of the step. */
  lemma {:induction false} ChunksFit(sealed: seq<byte>, p: Platform)
    ensures var chunks, limit := Chunks(sealed, StepSize(p)), if p.Windows? then 1024 else 131072;
      && Pieces(chunks, [60, 77, 79, 82, 69, 62], limit)
      && Joined(chunks, limit - 6) == sealed
    decreases |sealed|
  {
    var step := StepSize(p);
    if step <= |sealed| {
      ChunksFit(sealed[step..], p);
      FirstPiece(sealed[..step], Chunks(sealed[step..], step), step);
      assert sealed == sealed[..step] + sealed[step..];
    } else if sealed != [] {
      assert Joined([sealed], step) == sealed + Joined([sealed][1..], step);
    }
  }

  ghost predicate Pieces(chunks: seq<seq<byte>>, marker: seq<byte>, limit: nat) {
    forall k :: 0 <= k < |chunks| ==>
      && 0 < |chunks[k]| <= limit
      && (k < |chunks| - 1 || |chunks[k]| + |marker| > limit ==>
            |chunks[k]| == limit && |marker| <= limit && chunks[k][limit - |marker|..] == marker)
  }

  /** The first `step` bytes of every chunk, joined. */
  function Joined(chunks: seq<seq<byte>>, step: nat): seq<byte> {
    if chunks == [] then []
    else (if |chunks[0]| <= step then chunks[0] else chunks[0][..step]) + Joined(chunks[1..], step)
  }

  lemma FirstPiece(part: seq<byte>, rest: seq<seq<byte>>, step: nat)
    requires |part| == step > 0 && Pieces(rest, MARKER, step + 6)
    ensures Pieces([part + MARKER] + rest, MARKER, step + 6)
    ensures Joined([part + MARKER] + rest, step) == part + Joined(rest, step)
  {
    assert ([part + MARKER] + rest)[1..] == rest;
    assert (part + MARKER)[..step] == part && (part + MARKER)[step..] == MARKER;
    forall k | 0 < k <= |rest| ensures ([part + MARKER] + rest)[k] == rest[k - 1] { }
  }

  /** Whether a string of UTF-8 bytes may be sliced at `k`. */
  predicate Boundary(s: seq<byte>, k: nat) {
    k == |s| || (k < |s| && !(128 <= s[k] < 192))
  }

  /** Not in front of a continuation byte, whose two top bits are 10. */
  lemma BoundaryMeaning(s: seq<byte>, k: nat)
    requires k <= |s|
    ensures Boundary(s, k) <==> (k < |s| ==> s[k] / 64 != 2)
  {
  }

  /** Every cut that storing `sealed` makes falls between characters. */
  predicate CutsCleanly(sealed: seq<byte>, step: nat)
    requires step > 0
  {
    step <= |sealed| ==> Boundary(sealed, step) && CutsCleanly(sealed[step..], step)
  }

  /** Piece number `j`, if it is a whole one, ends between characters. */
  predicate CleanPiece(sealed: seq<byte>, step: nat, j: nat) {
    (j + 1) * step <= |sealed| ==> Boundary(sealed, (j + 1) * step)
  }

  lemma NextPiece(sealed: seq<byte>, step: nat, j: nat)
    requires 0 < step <= |sealed|
    ensures CleanPiece(sealed, step, j + 1) <==> CleanPiece(sealed[step..], step, j)
  {
    assert (j + 2) * step == (j + 1) * step + step;
  }

  /** Cuts are made at the multiples of the step, the end of the string included. */
  lemma {:induction false} CutsMeaning(sealed: seq<byte>, step: nat)
    requires step > 0
    ensures CutsCleanly(sealed, step) <==> forall j: nat :: CleanPiece(sealed, step, j)
    decreases |sealed|
  {
    if step <= |sealed| {
      CutsMeaning(sealed[step..], step);
      assert CleanPiece(sealed, step, 0) <==> Boundary(sealed, step);
      forall j: nat ensures CleanPiece(sealed, step, j + 1) <==> CleanPiece(sealed[step..], step, j) {
        NextPiece(sealed, step, j);
      }
      if CutsCleanly(sealed, step) {
        forall j: nat ensures CleanPiece(sealed, step, j) {
          if j > 0 { NextPiece(sealed, step, j - 1); }
        }
      }
    } else {
      forall j: nat ensures CleanPiece(sealed, step, j) { assert (j + 1) * step == j * step + step; }
    }
  }

  lemma {:induction false} AsciiCutsCleanly(sealed: seq<byte>, step: nat)
    requires step > 0 && forall b :: b in sealed ==> b < 128
    ensures CutsCleanly(sealed, step)
    decreases |sealed|
  {
    if step <= |sealed| {
      assert step < |sealed| ==> sealed[step] in sealed;
      assert forall b :: b in sealed[step..] ==> b in sealed;
      AsciiCutsCleanly(sealed[step..], step);
    }
  }

  // ----- reading -----

  ghost function KeysFrom(ring: Ring, i: nat): set<nat> {
    set k | k in ring && i <= k
  }

  /** The joined entries from `i` on, up to the first one without a marker; None if one is missing. */
  function ReadFrom(ring: Ring, i: nat): Option<seq<byte>>
    decreases KeysFrom(ring, i)
  {
    if i !in ring then None
    else if !Marked(ring[i]) then Some(ring[i])
    else
      assert i in KeysFrom(ring, i) && i !in KeysFrom(ring, i + 1);
      Prepend(Unmarked(ring[i]), ReadFrom(ring, i + 1))
  }

  function Prepend(a: seq<byte>, rest: Option<seq<byte>>): Option<seq<byte>> {
    match rest
    case None => None
    case Some(b) => Some(a + b)
  }

  /** The entry at which reading from `i` stops. */
  function ReadStop(ring: Ring, i: nat): (stop: nat)
    ensures i <= stop
    ensures forall k :: i <= k < stop ==> k in ring
    ensures stop in ring <==> ReadFrom(ring, i).Some?
    decreases KeysFrom(ring, i)
  {
    if i !in ring || !Marked(ring[i]) then i
    else
      assert i in KeysFrom(ring, i) && i !in KeysFrom(ring, i + 1);
      ReadStop(ring, i + 1)
  }

  lemma {:induction false} ReadFromAgrees(a: Ring, b: Ring, i: nat)
    requires forall k :: i <= k ==> (k in a <==> k in b)
    requires forall k :: i <= k && k in a ==> a[k] == b[k]
    ensures ReadFrom(a, i) == ReadFrom(b, i)
    decreases KeysFrom(a, i)
  {
    if i in a && Marked(a[i]) {
      assert i in KeysFrom(a, i) && i !in KeysFrom(a, i + 1);
      ReadFromAgrees(a, b, i + 1);
    }
  }

  // ----- reading what was written -----

  /** What is left over by the last whole step. */
  function Remainder(sealed: seq<byte>, step: nat): seq<byte>
    requires step > 0
  {
    sealed[|sealed| - |sealed| % step..]
  }

  predicate Readable(sealed: seq<byte>, step: nat)
    requires step > 0
  {
    |sealed| % step != 0 && !Marked(Remainder(sealed, step))
  }

  /** The part of `sealed` a reader takes before it looks past the last entry written. */
  function Taken(sealed: seq<byte>, step: nat): seq<byte>
    requires step > 0
  {
    if |sealed| % step != 0 && Marked(Remainder(sealed, step)) then sealed[..|sealed| - |MARKER|] else sealed
  }

  lemma ModStep(n: nat, step: nat)
    requires 0 < step <= n
    ensures (n - step) % step == n % step
  {
    var q, r := (n - step) / step, (n - step) % step;
    assert n == step * q + r + step == step * (q + 1) + r;
    ModUnique(n, step, q + 1, r);
  }

  lemma ModUnique(n: nat, step: nat, q: nat, r: nat)
    requires r < step && n == step * q + r
    ensures n % step == r && n / step == q
  {
    var q', r' := n / step, n % step;
    assert n == step * q' + r';
    if q < q' {
      Apart(step, q, r, q', r');
    } else if q' < q {
      Apart(step, q', r', q, r);
    }
  }

  lemma Apart(step: nat, q: nat, r: nat, q': nat, r': nat)
    requires r < step && r' < step && q < q'
    ensures step * q + r < step * q' + r'
  {
    MulGrows(step, q + 1, q');
    assert step * (q + 1) == step * q + step;
  }

  lemma {:induction false} MulGrows(step: nat, a: nat, b: nat)
    requires a <= b
    ensures step * a <= step * b
    decreases b - a
  {
    if a < b {
      MulGrows(step, a, b - 1);
      assert step * b == step * (b - 1) + step;
    }
  }

  lemma TailIsLike(sealed: seq<byte>, step: nat)
    requires 0 < step <= |sealed|
    ensures |sealed[step..]| % step == |sealed| % step
    ensures Remainder(sealed[step..], step) == Remainder(sealed, step)
    ensures Readable(sealed[step..], step) == Readable(sealed, step)
    ensures Taken(sealed, step) == sealed[..step] + Taken(sealed[step..], step)
  {
    ModStep(|sealed|, step);
    var n, r := |sealed|, |sealed| % step;
    RemainderFits(n, step);
    assert sealed[step..][n - step - r..] == sealed[n - r..];
    if r != 0 && Marked(Remainder(sealed, step)) {
      var m := |MARKER|;
      assert m <= r;
      assert sealed[..n - m] == sealed[..step] + sealed[step..][..n - step - m];
    } else {
      assert sealed == sealed[..step] + sealed[step..];
    }
  }

  lemma RemainderFits(n: nat, step: nat)
    requires 0 < step <= n
    ensures n % step <= n - step
  {
    ModStep(n, step);
    assert (n - step) % step <= n - step by { ModSmall(n - step, step); }
  }

  lemma ModSmall(n: nat, step: nat)
    requires step > 0
    ensures n % step <= n
    ensures n < step ==> n % step == n
  {
    assert n == step * (n / step) + n % step;
    if n < step { ModUnique(n, step, 0, n); }
  }

  /** Entry `i` on holds `chunks`. */
  ghost predicate Holds(ring: Ring, i: nat, chunks: seq<seq<byte>>) {
    forall k: nat :: k < |chunks| ==> HoldsAt(ring, i + k, chunks[k])
  }

  ghost predicate HoldsAt(ring: Ring, i: nat, chunk: seq<byte>) {
    i in ring && ring[i] == chunk
  }

  /** Reading entries written for `sealed`, whatever follows them: the whole string if it is readable,
      else what is taken of it followed by whatever the later entries read as. */
  ghost predicate ReadsAs(ring: Ring, i: nat, sealed: seq<byte>, step: nat)
    requires step > 0
  {
    ReadFrom(ring, i) ==
    if Readable(sealed, step) then Some(sealed)
    else Prepend(Taken(sealed, step), ReadFrom(ring, i + |Chunks(sealed, step)|))
  }

  lemma {:induction false} ReadChunks(ring: Ring, i: nat, sealed: seq<byte>, step: nat)
    requires step > 0 && Holds(ring, i, Chunks(sealed, step))
    ensures ReadsAs(ring, i, sealed, step)
    decreases |sealed|
  {
    var chunks := Chunks(sealed, step);
    if sealed == [] {
      ModSmall(0, step);
      ReadNothing(ring, i);
    } else {
      assert HoldsAt(ring, i + 0, chunks[0]);
      if step <= |sealed| {
        assert chunks[1..] == Chunks(sealed[step..], step);
        HoldsTail(ring, i, chunks);
        ReadChunks(ring, i + 1, sealed[step..], step);
        ReadWhole(ring, i, sealed, step);
      } else {
        ReadShort(ring, i, sealed, step);
      }
    }
  }

  lemma ReadWhole(ring: Ring, i: nat, sealed: seq<byte>, step: nat)
    requires 0 < step <= |sealed| && HoldsAt(ring, i, sealed[..step] + MARKER)
    requires ReadsAs(ring, i + 1, sealed[step..], step)
    ensures ReadsAs(ring, i, sealed, step)
  {
    var first, rest := sealed[..step], sealed[step..];
    TailIsLike(sealed, step);
    MarkedChunk(first);
    assert ReadFrom(ring, i) == Prepend(first, ReadFrom(ring, i + 1));
    if Readable(sealed, step) {
      assert sealed == first + rest;
    } else {
      PrependPrepend(first, Taken(rest, step), ReadFrom(ring, i + |Chunks(sealed, step)|));
    }
  }

  lemma ReadShort(ring: Ring, i: nat, sealed: seq<byte>, step: nat)
    requires 0 < |sealed| < step && HoldsAt(ring, i, sealed)
    ensures ReadsAs(ring, i, sealed, step)
  {
    ModSmall(|sealed|, step);
    assert Remainder(sealed, step) == sealed;
  }

  lemma ReadNothing(ring: Ring, i: nat)
    ensures Prepend([], ReadFrom(ring, i)) == ReadFrom(ring, i)
  {
    match ReadFrom(ring, i) {
      case None =>
      case Some(r) => assert [] + r == r;
    }
  }

  lemma MarkedChunk(part: seq<byte>)
    ensures Marked(part + MARKER) && Unmarked(part + MARKER) == part
  {
    assert (part + MARKER)[|part|..] == MARKER;
    assert (part + MARKER)[..|part|] == part;
  }

  lemma PrependPrepend(a: seq<byte>, b: seq<byte>, rest: Option<seq<byte>>)
    ensures Prepend(a, Prepend(b, rest)) == Prepend(a + b, rest)
  {
    match rest {
      case None =>
      case Some(r) => assert a + (b + r) == (a + b) + r;
    }
  }

  lemma HoldsTail(ring: Ring, i: nat, chunks: seq<seq<byte>>)
    requires Holds(ring, i, chunks) && chunks != []
    ensures Holds(ring, i + 1, chunks[1..])
  {
    forall k: nat | k < |chunks| - 1
      ensures HoldsAt(ring, (i + 1) + k, chunks[1..][k])
    {
      var j := k + 1;
      assert HoldsAt(ring, i + j, chunks[j]);
    }
  }

  /** Reading after a store over any earlier entries. */
  lemma ReadAfterStore(ring: Ring, sealed: seq<byte>, step: nat)
    requires step > 0
    ensures ReadFrom(Put(ring, 0, Chunks(sealed, step)), 0) ==
            if Readable(sealed, step) then Some(sealed)
            else Prepend(Taken(sealed, step), ReadFrom(ring, |Chunks(sealed, step)|))
  {
    var chunks := Chunks(sealed, step);
    var ring' := Put(ring, 0, chunks);
    forall k: nat { PutAt(ring, 0, chunks, k); }
    assert Holds(ring', 0, chunks) by {
      forall k: nat | k < |chunks| ensures HoldsAt(ring', 0 + k, chunks[k]) { PutAt(ring, 0, chunks, k); }
    }
    ReadChunks(ring', 0, sealed, step);
    ReadFromAgrees(ring', ring, |chunks|);
  }

  /** The round trip on an empty keyring holds exactly for strings whose length is not a multiple of
      the step and whose last piece does not happen to end in the marker; otherwise nothing is read. */
  lemma RoundTripOnEmptyKeyring(sealed: seq<byte>, p: Platform)
    ensures ReadFrom(Put(map[], 0, Chunks(sealed, StepSize(p))), 0) == Some(sealed)
            <==> |sealed| % StepSize(p) != 0 && !Marked(Remainder(sealed, StepSize(p)))
    ensures !Readable(sealed, StepSize(p)) ==> ReadFrom(Put(map[], 0, Chunks(sealed, StepSize(p))), 0) == None
  {
    ReadAfterStore(map[], sealed, StepSize(p));
  }

  /** Under the same condition earlier entries do not matter, be they longer or not. */
  lemma RoundTripOverStaleEntries(ring: Ring, sealed: seq<byte>, p: Platform)
    requires Readable(sealed, StepSize(p))
    ensures ReadFrom(Put(ring, 0, Chunks(sealed, StepSize(p))), 0) == Some(sealed)
  {
    ReadAfterStore(ring, sealed, StepSize(p));
  }

  /** Without it a stale tail is read as part of the new value: here a string of exactly one step is
      stored where a value of two entries was, and comes back with the old second entry attached. */
  lemma StaleTailIsAppended(sealed: seq<byte>, tail: seq<byte>, p: Platform)
    requires |sealed| == StepSize(p) && !Marked(tail)
    ensures forall ring: Ring :: 1 in ring && ring[1] == tail ==>
              ReadFrom(Put(ring, 0, Chunks(sealed, StepSize(p))), 0) == Some(sealed + tail)
  {
    var step := StepSize(p);
    forall ring: Ring | 1 in ring && ring[1] == tail
      ensures ReadFrom(Put(ring, 0, Chunks(sealed, step)), 0) == Some(sealed + tail)
    {
      ReadAfterStore(ring, sealed, step);
      ModUnique(step, step, 1, 0);
      assert sealed[step..] == [] && |Chunks(sealed, step)| == 1;
    }
  }

  // ----- the storage object -----

  datatype StoreOutcome = Stored | Panicked

  /** The ring with its first `n` entries gone. */
  function Without(ring: Ring, n: nat): Ring {
    if n == 0 then ring else Without(ring, n - 1) - {n - 1}
  }

  lemma {:induction false} WithoutAt(ring: Ring, n: nat, k: nat)
    ensures k in Without(ring, n) <==> k in ring && n <= k
    ensures k in Without(ring, n) ==> Without(ring, n)[k] == ring[k]
  {
    if n > 0 { WithoutAt(ring, n - 1, k); }
  }

  lemma DivExact(k: nat, step: nat)
    requires step > 0
    ensures (k * step) / step == k
  {
    assert k * step == step * k + 0;
    ModUnique(k * step, step, k, 0);
  }

  lemma SliceOn(sealed: seq<byte>, i: nat, step: nat)
    requires i + step <= |sealed|
    ensures sealed[i..][..step] == sealed[i..i + step] && sealed[i..][step..] == sealed[i + step..]
    ensures Boundary(sealed[i..], step) == Boundary(sealed, i + step)
  {
  }

  /** `done` is what has been stored of `sealed` up to byte `i`, over the entries `before`. */
  ghost predicate Storing(before: Ring, now: Ring, sealed: seq<byte>, i: nat, done: seq<seq<byte>>, step: nat)
    requires step > 0
  {
    && i == |done| * step
    && now == Put(before, 0, done)
    && if i <= |sealed| then
         && Chunks(sealed, step) == done + Chunks(sealed[i..], step)
         && (CutsCleanly(sealed, step) <==> CutsCleanly(sealed[i..], step))
       else
         Chunks(sealed, step) == done && CutsCleanly(sealed, step)
  }

  lemma StoringWhole(before: Ring, now: Ring, sealed: seq<byte>, i: nat, done: seq<seq<byte>>, step: nat)
    requires step > 0 && Storing(before, now, sealed, i, done, step) && i + step <= |sealed|
    ensures var piece := sealed[i..i + step] + MARKER;
            Boundary(sealed, i + step) ==>
              Storing(before, now[|done| := piece], sealed, i + step, done + [piece], step)
    ensures !Boundary(sealed, i + step) ==> !CutsCleanly(sealed, step)
  {
    var piece := sealed[i..i + step] + MARKER;
    SliceOn(sealed, i, step);
    PutSnoc(before, 0, done, piece);
    ConcatAssoc(done, [piece], Chunks(sealed[i + step..], step));
    assert (|done| + 1) * step == |done| * step + step;
  }

  lemma StoringLast(before: Ring, now: Ring, sealed: seq<byte>, i: nat, done: seq<seq<byte>>, step: nat)
    requires step > 0 && Storing(before, now, sealed, i, done, step) && i < |sealed| < i + step
    ensures Storing(before, now[|done| := sealed[i..]], sealed, i + step, done + [sealed[i..]], step)
  {
    PutSnoc(before, 0, done, sealed[i..]);
  }

  lemma StoringOver(before: Ring, now: Ring, sealed: seq<byte>, i: nat, done: seq<seq<byte>>, step: nat)
    requires step > 0 && Storing(before, now, sealed, i, done, step) && i >= |sealed|
    ensures CutsCleanly(sealed, step) && now == Put(before, 0, Chunks(sealed, step))
  {
    if i == |sealed| {
      assert sealed[i..] == [] && done + [] == done;
    }
  }

  /** The pieces before the first cut inside a character are stored, and nothing else. */
  ghost predicate StoppedAtCut(before: Ring, now: Ring, sealed: seq<byte>, step: nat)
    requires step > 0
  {
    exists k: nat :: CutInside(sealed, step, k) && k <= |Chunks(sealed, step)| &&
      now == Put(before, 0, Chunks(sealed, step)[..k])
  }

  /** Piece number `k` would end inside a character, and no earlier one does. */
  ghost predicate CutInside(sealed: seq<byte>, step: nat, k: nat) {
    (k + 1) * step <= |sealed| && !CleanCut(sealed, step, k) && forall j: nat :: j < k ==> CleanCut(sealed, step, j)
  }

  predicate CleanCut(sealed: seq<byte>, step: nat, j: nat) {
    Boundary(sealed, (j + 1) * step)
  }

  class KeyringStorage {
    const platform: Platform
    var entries: seq<nat>     // handles opened so far; handle `i` is on entry `i`
    var ring: Ring            // the operating system's keyring

    ghost predicate Valid()
      reads this
    {
      forall i :: 0 <= i < |entries| ==> entries[i] == i
    }

    constructor (p: Platform, r: Ring)
      ensures Valid() && platform == p && ring == r && entries == []
    {
      platform, ring, entries := p, r, [];
    }

    method GetNextEntry(i: nat) returns (entry: nat)
      requires Valid() && i <= |entries|
      modifies this`entries
      ensures Valid() && entry == i
      ensures |entries| == if i < |old(entries)| then |old(entries)| else i + 1
    {
      if i == |entries| {
        entries := entries + [i];
      }
      entry := entries[i];
    }

    method Read() returns (sealed: Option<seq<byte>>)
      requires Valid()
      modifies this`entries
      ensures Valid() && sealed == ReadFrom(ring, 0)
      ensures |entries| == if ReadStop(ring, 0) < |old(entries)| then |old(entries)| else ReadStop(ring, 0) + 1
    {
      var str: seq<byte> := [];
      var i := 0;
      ReadNothing(ring, 0);
      while true
        invariant Valid() && i <= |entries|
        invariant |entries| == if i < |old(entries)| then |old(entries)| else i
        invariant ReadFrom(ring, 0) == Prepend(str, ReadFrom(ring, i))
        invariant ReadStop(ring, 0) == ReadStop(ring, i)
        decreases KeysFrom(ring, i)
      {
        var entry := GetNextEntry(i);
        if entry !in ring {
          return None;
        }
        var chunk := ring[entry];
        if !Marked(chunk) {
          return Some(str + chunk);
        }
        PrependPrepend(str, Unmarked(chunk), ReadFrom(ring, i + 1));
        assert i in KeysFrom(ring, i) && i !in KeysFrom(ring, i + 1);
        str := str + Unmarked(chunk);
        i := i + 1;
      }
    }

    /** Slicing between the bytes of one character panics; the pieces before it are already stored. */
    method Store(sealed: seq<byte>) returns (outcome: StoreOutcome)
      requires Valid()
      modifies this
      ensures Valid()
      ensures outcome.Stored? <==> CutsCleanly(sealed, StepSize(platform))
      ensures outcome.Stored? ==> ring == Put(old(ring), 0, Chunks(sealed, StepSize(platform)))
      ensures outcome.Panicked? ==> StoppedAtCut(old(ring), ring, sealed, StepSize(platform))
    {
      var step := StepSize(platform);
      var i := 0;
      ghost var done: seq<seq<byte>> := [];
      while i < |sealed|
        invariant Valid() && |done| <= |entries|
        invariant Storing(old(ring), ring, sealed, i, done, step)
        invariant i <= |sealed| ==> forall j: nat :: j < |done| ==> CleanCut(sealed, step, j)
        decreases |sealed| - i
      {
        DivExact(|done|, step);
        var entry := GetNextEntry(i / step);
        var cutoff := i + step;
        if cutoff <= |sealed| {
          StoringWhole(old(ring), ring, sealed, i, done, step);
          assert (|done| + 1) * step == cutoff;
          if !Boundary(sealed, cutoff) {
            assert Chunks(sealed, step)[..|done|] == done;
            assert CutInside(sealed, step, |done|);
            return Panicked;
          }
          ring := ring[entry := sealed[i..cutoff] + MARKER];
          done := done + [sealed[i..cutoff] + MARKER];
        } else {
          StoringLast(old(ring), ring, sealed, i, done, step);
          ring := ring[entry := sealed[i..]];
          done := done + [sealed[i..]];
        }
        i := cutoff;
      }
      StoringOver(old(ring), ring, sealed, i, done, step);
      outcome := Stored;
    }

    /** Deletes what the handles are on, after a read that opens a handle on each entry it visits. A
        missing entry is an error here, so clearing succeeds only if a value is stored and no handle
        is on an entry that is gone; after a success nothing is read back. */
    method Clear() returns (ok: bool)
      requires Valid()
      modifies this
      ensures Valid()
      ensures ok <==> ReadFrom(old(ring), 0).Some? && forall k :: k in old(entries) ==> k in old(ring)
      ensures ok ==> entries == [] && ReadFrom(ring, 0) == None
      ensures ok ==> ReadStop(old(ring), 0) !in ring
      ensures exists n: nat :: ring == Without(old(ring), n)
      ensures ok ==> var stop := ReadStop(old(ring), 0);
        ring == Without(old(ring), if stop < |old(entries)| then |old(entries)| else stop + 1)
    {
      var unused := Read();
      ghost var stop := ReadStop(ring, 0);
      var i := 0;
      ghost var handles := entries;
      assert ring == Without(old(ring), 0);
      while i < |entries|
        invariant 0 <= i <= |entries| && Valid() && entries == handles
        invariant forall k: nat :: k < i ==> k in old(ring)
        invariant ring == Without(old(ring), i)
      {
        WithoutAt(old(ring), i, i);
        if entries[i] !in ring {
          assert i !in old(ring) && (i <= stop || i < |old(entries)|);
          assert i < |old(entries)| ==> old(entries)[i] == i;
          return false;
        }
        ring := ring - {entries[i]};
        i := i + 1;
      }
      WithoutAt(old(ring), i, 0);
      WithoutAt(old(ring), i, stop);
      entries := [];
      assert 0 !in ring && stop !in ring;
      ok := true;
    }
  }
}
