/**
 * The helpers of common.c: host-order scalar access to byte buffers
 * (get_u16/put_u16/get_u32/put_u32) and the discovery of the flash
 * partition's MTD device from the kernel's partition listing (get_dev_mtd).
 */
module Common {
  import opened Base

  newtype u16 = x: int | 0 <= x < 0x1_0000
  newtype u32 = x: int | 0 <= x < 0x1_0000_0000

  // ---------------------------------------------------------------------
  // Host byte order
  // ---------------------------------------------------------------------

  /** The byte order of the host the helpers run on; the C code copies raw
      host-order bytes, so the order is a parameter of the model. */
  datatype ByteOrder = LittleEndian | BigEndian

  function Pow256(n: nat): (p: nat)
    ensures p > 0
  {
    if n == 0 then 1 else 256 * Pow256(n - 1)
  }

  /** The n least significant base-256 digits of v, least significant first. */
  function LeBytes(v: nat, n: nat): (bs: seq<byte>)
    ensures |bs| == n
  {
    if n == 0 then [] else [(v % 256) as byte] + LeBytes(v / 256, n - 1)
  }

  /** The number whose base-256 digits, least significant first, are bs. */
  function LeValue(bs: seq<byte>): (v: nat)
    ensures v < Pow256(|bs|)
  {
    if bs == [] then 0 else bs[0] as nat + 256 * LeValue(bs[1..])
  }

  function Reversed(s: seq<byte>): (r: seq<byte>)
    ensures |r| == |s|
    ensures forall i :: 0 <= i < |s| ==> r[i] == s[|s| - 1 - i]
  {
    if s == [] then [] else Reversed(s[1..]) + [s[0]]
  }

  lemma ReversedTwice(s: seq<byte>)
    ensures Reversed(Reversed(s)) == s
  {
    assert forall i :: 0 <= i < |s| ==> Reversed(Reversed(s))[i] == s[i];
  }

  /** The n bytes that hold v in memory on a host of the given order. */
  function HostBytes(order: ByteOrder, v: nat, n: nat): (bs: seq<byte>)
    ensures |bs| == n
  {
    if order == LittleEndian then LeBytes(v, n) else Reversed(LeBytes(v, n))
  }

  /** The unsigned value a host of the given order reads from the bytes bs. */
  function HostValue(order: ByteOrder, bs: seq<byte>): (v: nat)
    ensures v < Pow256(|bs|)
  {
    if order == LittleEndian then LeValue(bs) else LeValue(Reversed(bs))
  }

  lemma {:induction false} LeValueOfLeBytes(v: nat, n: nat)
    requires v < Pow256(n)
    ensures LeValue(LeBytes(v, n)) == v
  {
    if n > 0 {
      LeValueOfLeBytes(v / 256, n - 1);
      assert LeBytes(v, n)[1..] == LeBytes(v / 256, n - 1);
    }
  }

  lemma {:induction false} LeBytesOfLeValue(bs: seq<byte>)
    ensures LeBytes(LeValue(bs), |bs|) == bs
  {
    if bs != [] {
      var v := LeValue(bs);
      assert v % 256 == bs[0] as nat && v / 256 == LeValue(bs[1..]);
      LeBytesOfLeValue(bs[1..]);
    }
  }

  /** Writing a value and reading it back on the same host gives the value. */
  lemma HostRoundTrip(order: ByteOrder, v: nat, n: nat)
    requires v < Pow256(n)
    ensures HostValue(order, HostBytes(order, v, n)) == v
  {
    LeValueOfLeBytes(v, n);
    ReversedTwice(LeBytes(v, n));
  }

  /** Reading a value and writing it back on the same host gives the bytes. */
  lemma HostBytesOfValue(order: ByteOrder, bs: seq<byte>)
    ensures HostBytes(order, HostValue(order, bs), |bs|) == bs
  {
    if order == LittleEndian {
      LeBytesOfLeValue(bs);
    } else {
      LeBytesOfLeValue(Reversed(bs));
      ReversedTwice(bs);
    }
  }

  /** The bytes of a 16-bit scalar are host specific: a little-endian host
      stores the low byte first, a big-endian host the high byte first, so the
      two differ for every value whose two bytes differ. */
  lemma HostOrderMatters(v: nat)
    requires v < 0x1_0000
    ensures HostBytes(LittleEndian, v, 2) == [(v % 256) as byte, (v / 256) as byte]
    ensures HostBytes(BigEndian, v, 2) == [(v / 256) as byte, (v % 256) as byte]
    ensures v % 256 != v / 256 ==> HostBytes(LittleEndian, v, 2) != HostBytes(BigEndian, v, 2)
  {
    assert LeBytes(v, 2) == [(v % 256) as byte, (v / 256) as byte] by {
      assert LeBytes(v / 256, 1) == [(v / 256) as byte] + LeBytes(v / 256 / 256, 0);
    }
  }

  // ---------------------------------------------------------------------
  // get_u16 / put_u16 / get_u32 / put_u32
  // ---------------------------------------------------------------------

  /** get_u16: the host-order 16-bit value stored at p[at], p[at + 1], that
      is, the one value whose two host-order bytes are the bytes there. */
  function GetU16(order: ByteOrder, p: array<byte>, at: nat): (v: u16)
    requires at + 2 <= p.Length
    reads p
    ensures HostBytes(order, v as nat, 2) == p[at..at + 2]
  {
    HostBytesOfValue(order, p[at..at + 2]);
    HostValue(order, p[at..at + 2]) as u16
  }

  /** put_u16: stores v at p[at], p[at + 1] in host order and touches nothing else. */
  method PutU16(order: ByteOrder, p: array<byte>, at: nat, v: u16)
    requires at + 2 <= p.Length
    modifies p
    ensures p[..] == old(p[..at]) + HostBytes(order, v as nat, 2) + old(p[at + 2..])
    ensures forall j :: 0 <= j < p.Length && !(at <= j < at + 2) ==> p[j] == old(p[j])
    ensures GetU16(order, p, at) == v
  {
    Memcpy(p, at, HostBytes(order, v as nat, 2));
    assert p[at..at + 2] == HostBytes(order, v as nat, 2);
    HostRoundTrip(order, v as nat, 2);
  }

  /** get_u32: the host-order 32-bit value stored at p[at .. at + 4), that
      is, the one value whose four host-order bytes are the bytes there. */
  function GetU32(order: ByteOrder, p: array<byte>, at: nat): (v: u32)
    requires at + 4 <= p.Length
    reads p
    ensures HostBytes(order, v as nat, 4) == p[at..at + 4]
  {
    assert Pow256(4) == 0x1_0000_0000 by { assert Pow256(2) == 0x1_0000; }
    HostBytesOfValue(order, p[at..at + 4]);
    HostValue(order, p[at..at + 4]) as u32
  }

  /** put_u32: stores v at p[at .. at + 4) in host order and touches nothing else. */
  method PutU32(order: ByteOrder, p: array<byte>, at: nat, v: u32)
    requires at + 4 <= p.Length
    modifies p
    ensures p[..] == old(p[..at]) + HostBytes(order, v as nat, 4) + old(p[at + 4..])
    ensures forall j :: 0 <= j < p.Length && !(at <= j < at + 4) ==> p[j] == old(p[j])
    ensures GetU32(order, p, at) == v
  {
    Memcpy(p, at, HostBytes(order, v as nat, 4));
    assert p[at..at + 4] == HostBytes(order, v as nat, 4);
    HostRoundTrip(order, v as nat, 4);
  }

  // ---------------------------------------------------------------------
  // is_pnor_part / get_dev_mtd
  // ---------------------------------------------------------------------

  /** One fgets result from the partition listing: the characters it stored
      before the line feed, and whether the line feed was read (a line that
      did not fit the buffer, or a last line without a line feed, is
      incomplete). The text may hold NUL characters read from the file. */
  datatype Line = Line(text: string, complete: bool)

  /** The test line[strlen(line) - 1] == '\n' of get_dev_mtd. strlen stops at
      the first NUL, so a line holding a NUL fails the test even when its line
      feed was read: the character before that NUL is never the line feed,
      which fgets only stores last. A NUL as the very first character makes
      the C code read line[-1]; the model lets that line fail the test too. */
  predicate EndsAtLineFeed(l: Line)
  {
    l.complete && '\0' !in l.text
  }

  /** tolower in the C locale. */
  function ToLower(c: char): char
  {
    if 'A' <= c <= 'Z' then (c as int + 32) as char else c
  }

  /** "pnor" occurs at position i of s, ignoring case. */
  predicate PnorAt(s: string, i: nat)
    requires i + 4 <= |s|
  {
    ToLower(s[i]) == 'p' && ToLower(s[i + 1]) == 'n' &&
    ToLower(s[i + 2]) == 'o' && ToLower(s[i + 3]) == 'r'
  }

  /** strcasestr(s + from, "pnor") != NULL */
  function PnorFrom(s: string, from: nat): (found: bool)
    ensures found <==> exists i :: from <= i && i + 4 <= |s| && PnorAt(s, i)
    decreases |s| - from
  {
    if from + 4 > |s| then false
    else PnorAt(s, from) || PnorFrom(s, from + 1)
  }

  /** is_pnor_part: the line mentions "pnor" in any case. */
  function IsPnorPart(s: string): (found: bool)
    ensures found <==> exists i :: 0 <= i && i + 4 <= |s| && PnorAt(s, i)
  {
    PnorFrom(s, 0)
  }

  /** strchr(s, c): the index of the first c in s, if any. */
  function FirstIndexOf(s: string, c: char): (r: Option<nat>)
    ensures r.None? <==> c !in s
    ensures r.Some? ==> r.value < |s| && s[r.value] == c && c !in s[..r.value]
  {
    if s == [] then None
    else if s[0] == c then Some(0)
    else match FirstIndexOf(s[1..], c)
      case None => None
      case Some(i) => assert s[..i + 1] == [s[0]] + s[1..][..i]; Some(i + 1)
  }

  /** The verdict on the line where the scan stops reading: a line failing
      the line-feed test or a matching line without ':' gives no device; a matching line
      with ':' gives "/dev/" followed by the text before its first ':'. */
  function StopVerdict(l: Line): Option<string>
  {
    if !EndsAtLineFeed(l) then None
    else match FirstIndexOf(l.text, ':')
      case None => None
      case Some(i) => Some("/dev/" + l.text[..i])
  }

  /** A line the scan reads past: it passes the line-feed test and does not
      name the flash partition. */
  predicate Skipped(l: Line)
  {
    EndsAtLineFeed(l) && !IsPnorPart(l.text)
  }

  /** The loop of get_dev_mtd over the lines fgets returns. A device it
      finds is a path under /dev named by text from a line that passes the
      line-feed test and mentions "pnor", up to (and without) that line's
      first ':'. */
  function ScanLines(lines: seq<Line>): (dev: Option<string>)
    ensures dev.Some? ==>
              exists j, n :: 0 <= j < |lines| && 0 <= n < |lines[j].text| &&
                             EndsAtLineFeed(lines[j]) && IsPnorPart(lines[j].text) &&
                             lines[j].text[n] == ':' && ':' !in lines[j].text[..n] &&
                             dev.value == "/dev/" + lines[j].text[..n]
  {
    if lines == [] then None
    else if Skipped(lines[0]) then ScanLines(lines[1..])
    else StopVerdict(lines[0])
  }

  /** get_dev_mtd; None as the listing stands for a failed fopen, which
      gives no device; a device found is a path under /dev. */
  function MtdDevice(listing: Option<seq<Line>>): (dev: Option<string>)
    ensures listing.None? ==> dev.None?
    ensures dev.Some? ==> |dev.value| >= 5 && dev.value[..5] == "/dev/"
  {
    match listing
    case None => None
    case Some(lines) => ScanLines(lines)
  }

  /** The index of the first line the scan does not read past, or |lines|. */
  function FirstStop(lines: seq<Line>): (j: nat)
    ensures j <= |lines|
    ensures forall k :: 0 <= k < j ==> Skipped(lines[k])
    ensures j < |lines| ==> !Skipped(lines[j])
  {
    if lines == [] || !Skipped(lines[0]) then 0 else FirstStop(lines[1..]) + 1
  }

  /** The scan's result is decided by the first line it does not read past. */
  lemma {:induction false} ScanLinesAtFirstStop(lines: seq<Line>)
    ensures ScanLines(lines) ==
      var j := FirstStop(lines); if j == |lines| then None else StopVerdict(lines[j])
  {
    if lines != [] && Skipped(lines[0]) {
      ScanLinesAtFirstStop(lines[1..]);
    }
  }

  /** The lines before the scan stops, and the stopping line, fix FirstStop. */
  lemma {:induction false} FirstStopUnique(lines: seq<Line>, j: nat)
    requires j <= |lines|
    requires forall k :: 0 <= k < j ==> Skipped(lines[k])
    requires j < |lines| ==> !Skipped(lines[j])
    ensures FirstStop(lines) == j
  {
    if j > 0 {
      assert Skipped(lines[0]);
      FirstStopUnique(lines[1..], j - 1);
    }
  }

  /** The first line passing the line-feed test and naming "pnor" decides the result: "/dev/" plus
      its text up to the first ':', or no device when it has no ':'. */
  lemma FirstMatchDecides(lines: seq<Line>, j: nat)
    requires j < |lines|
    requires forall k :: 0 <= k < j ==> Skipped(lines[k])
    requires EndsAtLineFeed(lines[j]) && IsPnorPart(lines[j].text)
    ensures ':' !in lines[j].text ==> ScanLines(lines) == None
    ensures ':' in lines[j].text ==>
      ScanLines(lines) == Some("/dev/" + lines[j].text[..FirstIndexOf(lines[j].text, ':').value])
  {
    FirstStopUnique(lines, j);
    ScanLinesAtFirstStop(lines);
  }

  /** A line failing the line-feed test (incomplete, or holding a NUL) read
      before any match ends the scan without a device. */
  lemma TruncatedLineAborts(lines: seq<Line>, j: nat)
    requires j < |lines|
    requires forall k :: 0 <= k < j ==> Skipped(lines[k])
    requires !EndsAtLineFeed(lines[j])
    ensures ScanLines(lines) == None
  {
    FirstStopUnique(lines, j);
    ScanLinesAtFirstStop(lines);
  }

  /** A listing without a matching line gives no device. */
  lemma NoMatchNoDevice(lines: seq<Line>)
    requires forall k :: 0 <= k < |lines| ==> Skipped(lines[k])
    ensures ScanLines(lines) == None
  {
    FirstStopUnique(lines, |lines|);
    ScanLinesAtFirstStop(lines);
  }

  /** Lines after the one where the scan stops are never examined. */
  lemma LaterLinesIgnored(lines: seq<Line>, rest: seq<Line>)
    requires FirstStop(lines) < |lines|
    ensures ScanLines(lines + rest) == ScanLines(lines)
  {
    var j := FirstStop(lines);
    var all := lines + rest;
    assert forall k :: 0 <= k <= j ==> all[k] == lines[k];
    FirstStopUnique(all, j);
    ScanLinesAtFirstStop(lines);
    ScanLinesAtFirstStop(all);
  }

  /** A device is found exactly when the first line the scan stops at is a
      "pnor" line passing the line-feed test with a ':', and the device names
      that line. */
  lemma DeviceFoundIff(lines: seq<Line>, dev: string)
    ensures ScanLines(lines) == Some(dev) <==>
      exists j :: 0 <= j < |lines| && j == FirstStop(lines) &&
        EndsAtLineFeed(lines[j]) && IsPnorPart(lines[j].text) && ':' in lines[j].text &&
        dev == "/dev/" + lines[j].text[..FirstIndexOf(lines[j].text, ':').value]
  {
    ScanLinesAtFirstStop(lines);
  }

  /** strchr finds the first occurrence: the one index with c and no c before it. */
  lemma FirstIndexOfIs(s: string, c: char, i: nat)
    requires i < |s| && s[i] == c && c !in s[..i]
    ensures FirstIndexOf(s, c) == Some(i)
  {
    var r := FirstIndexOf(s, c);
    assert s[..r.value + 1][r.value] == c;
    assert s[..i + 1][i] == c;
  }

  /** A listing line "name: size erasesize "label"" whose label mentions pnor,
      after lines the scan reads past, yields "/dev/name" whatever follows;
      for the line mtd4: 02000000 00010000 "pnor" the device is /dev/mtd4. */
  lemma PnorLineNamesDevice(before: seq<Line>, name: string, tail: string, after: seq<Line>)
    requires forall k :: 0 <= k < |before| ==> Skipped(before[k])
    requires ':' !in name && IsPnorPart(tail) && '\0' !in name + tail
    ensures ScanLines(before + [Line(name + ":" + tail, true)] + after) == Some("/dev/" + name)
  {
    var line := name + ":" + tail;
    var lines := before + [Line(line, true)] + after;
    var i :| 0 <= i && i + 4 <= |tail| && PnorAt(tail, i);
    assert line[|name| + 1 + i..|name| + 1 + i + 4] == tail[i..i + 4];
    assert PnorAt(line, |name| + 1 + i);
    assert line[..|name|] == name;
    FirstIndexOfIs(line, ':', |name|);
    assert forall k :: 0 <= k < |before| ==> lines[k] == before[k];
    FirstMatchDecides(lines, |before|);
  }
  /** get_dev_mtd as the C code runs it: read lines until one names the flash
      partition, stopping early at a line failing the line-feed test or at a
      ':'-less match. */
  method GetDevMtd(listing: Option<seq<Line>>) returns (ret: Option<string>)
    ensures ret == MtdDevice(listing)
  {
    if listing.None? {
      return None;
    }
    var lines := listing.value;
    var pos: Option<nat> := None;
    var line: string := "";
    var i := 0;
    while pos.None? && i < |lines|
      invariant 0 <= i <= |lines|
      invariant pos.None? ==> ScanLines(lines) == ScanLines(lines[i..])
      invariant pos.Some? ==>
                  pos.value < |line| && ScanLines(lines) == Some("/dev/" + line[..pos.value])
    {
      assert lines[i..][1..] == lines[i + 1..];
      line := lines[i].text;
      if !EndsAtLineFeed(lines[i]) {
        break;
      }
      if IsPnorPart(line) {
        pos := FirstIndexOf(line, ':');
        if pos.None? {
          break;
        }
      }
      i := i + 1;
    }
    if pos.Some? {
      line := line[..pos.value];
      ret := Some("/dev/" + line);
    } else {
      ret := None;
    }
  }
}
