/**
 The streaming run-ID scanner of scripts/test-vm/retention.ts: addRunIds, addRunIdsFromReads and
 isRunIdAt, over a byte buffer that is filled, scanned and shifted in place. A run ID is its 25 bytes;
 the latin1 decoding of the original maps them one to one.
 */
module RunScan {
  type Byte = b: int | 0 <= b < 256

  const ID_LENGTH := 25

  predicate IsDigit(b: Byte) {
    0x30 <= b <= 0x39
  }

  predicate IsHex(b: Byte) {
    IsDigit(b) || 0x61 <= b <= 0x66
  }

  predicate IsMark(z: Byte, dash: Byte) {
    z == 0x5A && dash == 0x2D
  }

  /** runIdPattern: eight digits, T, six digits, Z, a dash, eight lower-case hexadecimal digits. */
  predicate IsRunId(s: seq<Byte>) {
    && |s| == ID_LENGTH
    && (forall i :: 0 <= i < 8 ==> IsDigit(s[i])) && s[8] == 0x54 && (forall i :: 9 <= i < 15 ==> IsDigit(s[i]))
    && IsMark(s[15], s[16])
    && (forall i :: 17 <= i < 25 ==> IsHex(s[i]))
  }

  const DIGITS: set<Byte> := {0x30, 0x31, 0x32, 0x33, 0x34, 0x35, 0x36, 0x37, 0x38, 0x39}
  const HEX: set<Byte> := DIGITS + {0x61, 0x62, 0x63, 0x64, 0x65, 0x66}

  /** A run ID is a date, a T, a time, a Z, a dash and a suffix. */
  predicate Spells(s: seq<Byte>, date: seq<Byte>, time: seq<Byte>, suffix: seq<Byte>) {
    && |date| == 8 && |time| == 6 && |suffix| == 8
    && (forall b :: b in date ==> b in DIGITS) && (forall b :: b in time ==> b in DIGITS)
    && (forall b :: b in suffix ==> b in HEX)
    && s == date + [0x54] + time + [0x5A, 0x2D] + suffix
  }

  lemma SpellsItself(s: seq<Byte>)
    requires IsRunId(s)
    ensures Spells(s, s[..8], s[9..15], s[17..])
  {
    var date, time, suffix := s[..8], s[9..15], s[17..];
    assert forall i :: 0 <= i < 8 ==> date[i] == s[i];
    assert forall i :: 0 <= i < 6 ==> time[i] == s[9 + i];
    assert forall i :: 0 <= i < 8 ==> suffix[i] == s[17 + i];
  }

  lemma RunIdShape(s: seq<Byte>)
    ensures IsRunId(s) <==> exists date, time, suffix :: Spells(s, date, time, suffix)
  {
    if IsRunId(s) {
      SpellsItself(s);
    }
    if exists date, time, suffix :: Spells(s, date, time, suffix) {
      var date, time, suffix :| Spells(s, date, time, suffix);
      assert |s| == 25 && s[8] == 0x54 && s[15] == 0x5A && s[16] == 0x2D;
      assert forall i :: 0 <= i < 8 ==> s[i] == date[i] && date[i] in date;
      assert forall i :: 9 <= i < 15 ==> s[i] == time[i - 9] && time[i - 9] in time;
      assert forall i :: 17 <= i < 25 ==> s[i] == suffix[i - 17] && suffix[i - 17] in suffix;
    }
  }

  function Window(s: seq<Byte>, i: nat): seq<Byte>
    requires i + ID_LENGTH <= |s|
  {
    s[i..i + ID_LENGTH]
  }

  predicate IdAt(s: seq<Byte>, i: nat) {
    i + ID_LENGTH <= |s| && IsRunId(Window(s, i))
  }

  predicate MarkAt(s: seq<Byte>, k: nat) {
    k + 1 < |s| && IsMark(s[k], s[k + 1])
  }

  /** Every length-25 substring that matches, overlapping ones included. */
  function RunIds(s: seq<Byte>): set<seq<Byte>> {
    set i: nat | i < |s| && IdAt(s, i) :: Window(s, i)
  }

  /** Those that start before `limit`. */
  function RunIdsBefore(s: seq<Byte>, limit: nat): set<seq<Byte>> {
    set i: nat | i < |s| && i < limit && IdAt(s, i) :: Window(s, i)
  }

  class IdSet {
    var ids: set<seq<Byte>>

    constructor ()
      ensures ids == {}
    {
      ids := {};
    }
  }

  /** Checks every position but the mark at 15 and 16, which the caller has found. */
  method IsRunIdAt(bytes: array<Byte>, start: nat) returns (ok: bool)
    requires start + ID_LENGTH <= bytes.Length && IsMark(bytes[start + 15], bytes[start + 16])
    ensures ok <==> IsRunId(bytes[start..start + ID_LENGTH])
  {
    ghost var id := bytes[start..start + ID_LENGTH];
    for offset := 0 to 15
      invariant forall i :: 0 <= i < offset ==> if i == 8 then id[i] == 0x54 else IsDigit(id[i])
    {
      var byte := bytes[start + offset];
      assert byte == id[offset];
      if if offset == 8 then byte != 0x54 else byte < 0x30 || byte > 0x39 {
        return false;
      }
    }
    for offset := 17 to ID_LENGTH
      invariant forall i :: 17 <= i < offset ==> IsHex(id[i])
    {
      var byte := bytes[start + offset];
      assert byte == id[offset];
      if (byte < 0x30 || byte > 0x39) && (byte < 0x61 || byte > 0x66) {
        return false;
      }
    }
    return true;
  }

  /** Buffer.indexOf("Z-", from) on bytes[0, end). */
  method IndexOfMark(bytes: array<Byte>, end: nat, from: nat) returns (at: int)
    requires end <= bytes.Length
    ensures at == -1 || (from <= at && MarkAt(bytes[..end], at))
    ensures forall k :: from <= k && (at == -1 || k < at) ==> !MarkAt(bytes[..end], k)
  {
    at := from;
    while at + 1 < end
      invariant from <= at
      invariant forall k :: from <= k < at ==> !MarkAt(bytes[..end], k)
    {
      if IsMark(bytes[at], bytes[at + 1]) {
        return;
      }
      at := at + 1;
    }
    at := -1;
  }

  /** A run ID has its mark 15 bytes after its start. */
  lemma IdHasMark(s: seq<Byte>, i: nat)
    requires IdAt(s, i)
    ensures MarkAt(s, i + 15)
  {
    assert Window(s, i)[15] == s[i + 15] && Window(s, i)[16] == s[i + 16];
  }

  /** Between two marks no run ID starts. */
  lemma NoneBetween(s: seq<Byte>, lo: nat, hi: nat)
    requires lo <= hi
    requires forall k :: lo + 15 <= k < hi + 15 ==> !MarkAt(s, k)
    ensures RunIdsBefore(s, lo) == RunIdsBefore(s, hi)
  {
    forall i: nat | lo <= i < hi && IdAt(s, i)
      ensures false
    {
      IdHasMark(s, i);
    }
  }

  lemma OneMore(s: seq<Byte>, i: nat)
    requires i + ID_LENGTH <= |s|
    ensures RunIdsBefore(s, i + 1) == RunIdsBefore(s, i) + (if IdAt(s, i) then {Window(s, i)} else {})
  {
  }

  lemma NothingAfter(s: seq<Byte>, limit: nat)
    requires limit + ID_LENGTH > |s|
    ensures RunIdsBefore(s, limit) == RunIds(s)
  {
  }

  method AddRunIds(bytes: array<Byte>, end: nat, into: IdSet)
    requires end <= bytes.Length
    modifies into
    ensures into.ids == old(into.ids) + RunIds(bytes[..end])
  {
    ghost var view := bytes[..end];
    ghost var next := 0;
    assert RunIdsBefore(view, 0) == {};
    var at := IndexOfMark(bytes, end, 15);
    assert bytes[..end] == view;
    while at != -1
      invariant at == -1 || (15 + next <= at && MarkAt(view, at))
      invariant forall k :: next + 15 <= k && (at == -1 || k < at) ==> !MarkAt(view, k)
      invariant next <= end && bytes[..end] == view
      invariant into.ids == old(into.ids) + RunIdsBefore(view, next)
      decreases end - next
    {
      var start := at - 15;
      NoneBetween(view, next, start);
      if start + ID_LENGTH > end {
        NothingAfter(view, start);
        return;
      }
      OneMore(view, start);
      CheckId(bytes, end, start, into);
      next := start + 1;
      at := IndexOfMark(bytes, end, at + 1);
      assert bytes[..end] == view;
    }
    NoneBetween(view, next, end);
    NothingAfter(view, end);
  }

  /** One mark: the 25 bytes around it are added if they are an ID. */
  method CheckId(bytes: array<Byte>, end: nat, start: nat, into: IdSet)
    requires start + ID_LENGTH <= end <= bytes.Length && MarkAt(bytes[..end], start + 15)
    modifies into
    ensures into.ids == old(into.ids) + (if IdAt(bytes[..end], start) then {Window(bytes[..end], start)} else {})
  {
    var found := IsRunIdAt(bytes, start);
    assert bytes[start..start + ID_LENGTH] == Window(bytes[..end], start);
    if found {
      into.ids := into.ids + {bytes[start..start + ID_LENGTH]};
    }
  }

  /** A descriptor: each read takes any positive number of bytes that fit, and none only at the end or into no room. */
  class Source {
    var rest: seq<Byte>

    constructor (content: seq<Byte>)
      ensures rest == content
    {
      rest := content;
    }

    method Read(into: array<Byte>, offset: nat, length: nat) returns (count: nat)
      requires offset + length <= into.Length
      modifies this, into
      ensures count <= length && count <= |old(rest)|
      ensures count == 0 <==> length == 0 || old(rest) == []
      ensures rest == old(rest)[count..]
      ensures into[..] == old(into[..offset]) + old(rest)[..count] + old(into[offset + count..])
    {
      if length == 0 || rest == [] {
        return 0;
      }
      count :| 1 <= count <= length && count <= |rest|;
      forall i | 0 <= i < count {
        into[offset + i] := rest[i];
      }
      rest := rest[count..];
    }
  }

  function Min(a: nat, b: nat): nat {
    if a < b then a else b
  }

  /** The bytes kept in front of the next read. */
  function Carry(seen: seq<Byte>): seq<Byte> {
    seen[|seen| - Min(ID_LENGTH - 1, |seen|)..]
  }

  /** An ID either lay within what was already seen, or lies within the carried bytes and the new ones. */
  lemma SplitScan(seen: seq<Byte>, chunk: seq<Byte>)
    ensures RunIds(seen + chunk) == RunIds(seen) + RunIds(Carry(seen) + chunk)
  {
    var all, tail := seen + chunk, Carry(seen) + chunk;
    var cut := |seen| - |Carry(seen)|;
    assert all[cut..] == tail;
    forall id | id in RunIds(all)
      ensures id in RunIds(seen) + RunIds(tail)
    {
      var i: nat :| i < |all| && IdAt(all, i) && Window(all, i) == id;
      if i + ID_LENGTH <= |seen| {
        assert Window(seen, i) == id && IdAt(seen, i);
      } else {
        assert Window(tail, i - cut) == id && IdAt(tail, i - cut);
      }
    }
    forall id | id in RunIds(seen)
      ensures id in RunIds(all)
    {
      var i: nat :| i < |seen| && IdAt(seen, i) && Window(seen, i) == id;
      assert Window(all, i) == id && IdAt(all, i);
    }
    forall id | id in RunIds(tail)
      ensures id in RunIds(all)
    {
      var i: nat :| i < |tail| && IdAt(tail, i) && Window(tail, i) == id;
      assert Window(all, cut + i) == id && IdAt(all, cut + i);
    }
  }

  lemma ScannedGrows(size: nat, seen: seq<Byte>, chunk: seq<Byte>)
    requires |Carry(seen) + chunk| <= size
    ensures Scanned(size, seen + chunk) == Scanned(size, seen) + RunIds(Carry(seen) + chunk)
  {
    SplitScan(seen, chunk);
  }

  /** What stays in front after the next read. */
  lemma CarryOn(seen: seq<Byte>, chunk: seq<Byte>)
    ensures var filled := Carry(seen) + chunk;
            Carry(seen + chunk) == filled[|filled| - Min(ID_LENGTH - 1, |filled|)..]
  {
  }

  /** What a scan of `stream` through a buffer of `size` bytes adds. */
  function Scanned(size: nat, stream: seq<Byte>): set<seq<Byte>> {
    if size >= ID_LENGTH then RunIds(stream) else {}
  }

  /** The loop invariant: `seen` was read and scanned, and its last bytes are at the front of the buffer. */
  ghost predicate Scanning(source: Source, buffer: array<Byte>, into: IdSet, carried: nat,
                           stream: seq<Byte>, seen: seq<Byte>, found: set<seq<Byte>>)
    reads source, buffer, into
  {
    && stream == seen + source.rest
    && carried <= buffer.Length && buffer[..carried] == Carry(seen)
    && into.ids == found + Scanned(buffer.Length, seen)
  }

  /** One pass of the loop: read, stop on nothing, else scan and carry. */
  method Pass(source: Source, buffer: array<Byte>, into: IdSet, carried: nat,
              ghost stream: seq<Byte>, ghost seen: seq<Byte>, ghost found: set<seq<Byte>>)
    returns (more: bool, carried': nat, ghost seen': seq<Byte>)
    requires Scanning(source, buffer, into, carried, stream, seen, found)
    modifies source, buffer, into
    ensures more ==> Scanning(source, buffer, into, carried', stream, seen', found)
    ensures more ==> |source.rest| < |old(source.rest)|
    ensures !more ==> into.ids == found + Scanned(buffer.Length, stream)
  {
    ghost var rest := source.rest;
    var count, chunk := ReadMore(source, buffer, carried);
    if count == 0 {
      AtTheEnd(buffer.Length, stream, seen, rest);
      return false, carried, seen;
    }
    assert buffer[..carried + count] == Carry(seen) + chunk;
    carried' := ScanRead(buffer, carried + count, into, seen, chunk);
    more := true;
    seen' := seen + chunk;
    assert stream == seen' + source.rest;
  }

  /**
   However the reads split the stream, the scan terminates and adds exactly its run IDs, given room for one
   in the buffer; a smaller buffer fills up and the scan ends with nothing found.
   */
  method AddRunIdsFromReads(source: Source, buffer: array<Byte>, into: IdSet)
    modifies source, buffer, into
    ensures into.ids == old(into.ids) + Scanned(buffer.Length, old(source.rest))
  {
    ghost var stream, found := source.rest, into.ids;
    ghost var seen: seq<Byte> := [];
    var carried: nat, more := 0, true;
    assert RunIds([]) == {};
    while more
      invariant more ==> Scanning(source, buffer, into, carried, stream, seen, found)
      invariant !more ==> into.ids == found + Scanned(buffer.Length, stream)
      decreases more, |source.rest|
    {
      more, carried, seen := Pass(source, buffer, into, carried, stream, seen, found);
    }
  }

  /** A read that takes nothing ends the stream, unless the carried bytes fill a buffer too small for any ID. */
  lemma AtTheEnd(size: nat, stream: seq<Byte>, seen: seq<Byte>, rest: seq<Byte>)
    requires stream == seen + rest && (rest == [] || |Carry(seen)| == size)
    ensures Scanned(size, stream) == Scanned(size, seen)
  {
    assert rest == [] ==> stream == seen;
  }

  /** The read of one pass: `chunk` is what it took from the stream, behind the bytes carried over. */
  method ReadMore(source: Source, buffer: array<Byte>, carried: nat) returns (count: nat, ghost chunk: seq<Byte>)
    requires carried <= buffer.Length
    modifies source, buffer
    ensures old(source.rest) == chunk + source.rest && |chunk| == count
    ensures carried + count <= buffer.Length
    ensures buffer[..carried + count] == old(buffer[..carried]) + chunk
    ensures count == 0 ==> old(source.rest) == [] || carried == buffer.Length
  {
    count := source.Read(buffer, carried, buffer.Length - carried);
    chunk := old(source.rest)[..count];
  }

  /** One pass of the loop after a read: scan what is in the buffer and keep its last bytes. */
  method ScanRead(
    buffer: array<Byte>, end: nat, into: IdSet, ghost seen: seq<Byte>, ghost chunk: seq<Byte>) returns (carried: nat)
    requires end <= buffer.Length && buffer[..end] == Carry(seen) + chunk
    modifies buffer, into
    ensures carried <= buffer.Length && buffer[..carried] == Carry(seen + chunk)
    ensures into.ids == old(into.ids) + RunIds(Carry(seen) + chunk)
    ensures Scanned(buffer.Length, seen + chunk) == Scanned(buffer.Length, seen) + RunIds(Carry(seen) + chunk)
  {
    AddRunIds(buffer, end, into);
    ScannedGrows(buffer.Length, seen, chunk);
    CarryOn(seen, chunk);
    carried := Min(ID_LENGTH - 1, end);
    ghost var filled := buffer[..end];
    assert buffer[end - carried..end - carried + carried] == filled[end - carried..];
    ShiftDown(buffer, end - carried, carried);
  }

  /** buffer.copy(buffer, 0, from, from + count). */
  method ShiftDown(buffer: array<Byte>, from: nat, count: nat)
    requires from + count <= buffer.Length
    modifies buffer
    ensures buffer[..count] == old(buffer[from..from + count])
  {
    forall i | 0 <= i < count {
      buffer[i] := buffer[from + i];
    }
  }

  const SAMPLE: seq<Byte> := [
    0x32, 0x30, 0x32, 0x36, 0x30, 0x31, 0x30, 0x32, 0x54, 0x30, 0x33, 0x30, 0x34, 0x30, 0x35,
    0x5A, 0x2D, 0x30, 0x31, 0x32, 0x33, 0x61, 0x62, 0x63, 0x64]

  /** The scan is complete for every stream exactly when the buffer has room for one run ID. */
  lemma ScanCompleteIff(size: nat)
    ensures (forall stream :: Scanned(size, stream) == RunIds(stream)) <==> size >= ID_LENGTH
  {
    if size < ID_LENGTH {
      assert Window(SAMPLE, 0) == SAMPLE && IdAt(SAMPLE, 0);
      assert SAMPLE in RunIds(SAMPLE);
      assert Scanned(size, SAMPLE) != RunIds(SAMPLE);
    }
  }
}
