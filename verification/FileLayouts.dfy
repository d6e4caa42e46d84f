/** File messages byte by byte: what a sender writes, and what a receiver reads or refuses. */
module FileLayouts {
  import opened Bytes
  import opened FileMessages
  import opened FileTransfer
  import opened TransferModel

  /** Four bytes that spell a number, most significant first. */
  predicate Spells(s: seq<byte>, at: nat, n: u32) {
    && at + 4 <= |s| && s[at] == n / 0x100_0000 && s[at + 1] == n / 0x1_0000 % 256
    && s[at + 2] == n / 256 % 256 && s[at + 3] == n % 256
  }

  lemma SpellsAt(s: seq<byte>, at: nat, n: u32)
    requires at + 4 <= |s| && s[at..at + 4] == BE32(n)
    ensures Spells(s, at, n)
  {
    hide BE32;
    Spelled32(n);
    var w := s[at..at + 4];
    assert w[0] == s[at] && w[1] == s[at + 1] && w[2] == s[at + 2] && w[3] == s[at + 3];
  }

  // ----- any message

  /** Mark, subtype, length, version 1, kind, session, argument, and the payload. */
  predicate Written(w: seq<byte>, subtype: byte, kind: u16, session: u32, argument: u32, payload: seq<byte>) {
    && |w| == 18 + |payload| && |payload| < 0x1_0000_0000 - 12
    && w[0] == 0x22 && w[1] == subtype && Spells(w, 2, 12 + |payload|) && w[6] == 0 && w[7] == 1
    && w[8] == kind / 256 && w[9] == kind % 256 && Spells(w, 10, session) && Spells(w, 14, argument)
    && w[18..] == payload
  }

  /** The header of every message. */
  lemma WireLayout(f: Framed)
    requires |f.message.payload| <= MAX_MESSAGE_BYTES - HEADER
    ensures var m := f.message; Written(Wire(f), f.subtype, m.kind, m.session, m.argument, m.payload)
  {
    hide BE32, BE16, Spells;
    var w, m := Wire(f), f.message;
    Spelled16(m.kind);
    Spelled16(1);
    var h := [MARK, f.subtype];
    assert w == h + BE32(12 + |m.payload|) + BE16(1) + BE16(m.kind) + BE32(m.session) + BE32(m.argument) + m.payload;
    assert w[2..6] == BE32(12 + |m.payload|) && w[10..14] == BE32(m.session) && w[14..18] == BE32(m.argument);
    SpellsAt(w, 2, 12 + |m.payload|);
    SpellsAt(w, 10, m.session);
    SpellsAt(w, 14, m.argument);
    assert w[6] == BE16(1)[0] && w[7] == BE16(1)[1] && w[8] == BE16(m.kind)[0] && w[9] == BE16(m.kind)[1];
  }

  // ----- metadata

  /** 48 bytes: the size twice and the number 1, all else zero. */
  predicate InfoBytes(p: seq<byte>, size: u32) {
    && |p| == 48 && Spells(p, 8, size) && Spells(p, 16, size) && p[27] == 1
    && forall i :: 0 <= i < 48 && !(8 <= i < 12) && !(16 <= i < 20) && i != 27 ==> p[i] == 0
  }

  /** 100 bytes with the size, the mode of a plain file (octal 100644) and the length of the name, then the name. */
  predicate ItemBytes(p: seq<byte>, name: seq<byte>, size: u32) {
    && |p| == 100 + |name| && |name| <= 255 && Spells(p, 42, size) && p[90] == 0x81 && p[91] == 0xA4
    && p[97] == |name| && p[100..] == name
    && forall i :: 0 <= i < 100 && !(42 <= i < 46) && i !in {90, 91, 97} ==> p[i] == 0
  }

  lemma InfoLayout(size: u32)
    ensures InfoBytes(InfoPayload(size), size)
  {
    hide BE32, Spells;
    var p := InfoPayload(size);
    Spelled32(1);
    assert p == Zeros(8) + BE32(size) + Zeros(4) + BE32(size) + Zeros(4) + BE32(1) + Zeros(20);
    assert p[8..12] == BE32(size) && p[16..20] == BE32(size);
    SpellsAt(p, 8, size);
    SpellsAt(p, 16, size);
    assert p[24] == BE32(1)[0] && p[25] == BE32(1)[1] && p[26] == BE32(1)[2] && p[27] == BE32(1)[3];
  }

  lemma ItemLayout(name: seq<byte>, size: u32)
    requires |name| <= 255
    ensures ItemBytes(ItemPayload(name, size), name, size)
  {
    hide BE32, BE16, Spells;
    var p := ItemPayload(name, size);
    Spelled16(REGULAR);
    Spelled16(|name|);
    assert p == Zeros(42) + BE32(size) + Zeros(44) + BE16(REGULAR) + Zeros(4) + BE16(|name|) + Zeros(2) + name;
    assert p[42..46] == BE32(size);
    SpellsAt(p, 42, size);
    assert p[90] == BE16(REGULAR)[0] && p[91] == BE16(REGULAR)[1];
    assert p[96] == BE16(|name|)[0] && p[97] == BE16(|name|)[1];
  }

  /** Metadata is written for an allowed name of 1 to 255 bytes, a size of 32 bits, and a session other than 0. */
  lemma MetadataIff(rule: NameRule, session: u32, name: seq<byte>, size: nat)
    ensures UploadMetadata(rule, session, name, size).Success? <==>
              1 <= |name| <= 255 && rule(name) && size <= 0xFFFF_FFFF && session != 0
  {
  }

  /**
   Metadata announces a size, of 32 bits, exactly if it is laid out like this: 48 bytes with the number 1 at 24 and the
   same size at 8 and 16; or 100 bytes with a size at 42, the mode of a regular file, and the length of the allowed
   name that follows.
   */
  lemma SizeAnnounced(rule: NameRule, m: Message, size: u32)
    ensures AnnouncedSize(rule, m) == Success(Some(size)) <==>
              || (m.kind == 100 && |m.payload| == 48 && Spells(m.payload, 24, 1)
                  && Spells(m.payload, 8, size) && Spells(m.payload, 16, size))
              || (m.kind == 101 && 101 <= |m.payload| <= 355 && rule(m.payload[100..]) && Spells(m.payload, 42, size)
                  && 0x80 <= m.payload[90] < 0x90 && m.payload[96] == 0 && m.payload[97] == |m.payload| - 100)
  {
    hide InfoPayload, ItemPayload, AnnouncedSize, Spells, BE32, BE16;
    var p := m.payload;
    Announces(rule, m, size);
    InfoSlices(size);
    if |p| == 48 {
      SpellsIff(p, 24, 1);
      SpellsIff(p, 8, size);
      SpellsIff(p, 16, size);
    }
    if 101 <= |p| <= 355 {
      ItemSlices(p[100..], size);
      SpellsIff(p, 42, size);
      NameLengthIff(p);
    }
  }

  lemma SpellsIff(s: seq<byte>, at: nat, n: u32)
    requires at + 4 <= |s|
    ensures Spells(s, at, n) <==> s[at..at + 4] == BE32(n)
  {
    hide BE32;
    Spelled32(n);
    assert s[at..at + 4] == [s[at], s[at + 1], s[at + 2], s[at + 3]];
  }

  lemma NameLengthIff(p: seq<byte>)
    requires 101 <= |p| <= 355
    ensures p[96..98] == BE16(|p| - 100) <==> p[96] == 0 && p[97] == |p| - 100
  {
    hide BE16;
    Spelled16(|p| - 100);
    assert p[96..98] == [p[96], p[97]];
  }

  // ----- a whole upload

  /** A data message of the session: kind 102, at most 32 KiB, and its own length as the argument. */
  predicate DataOf(f: Framed, id: u32) {
    |f.message.payload| <= 32768 && f == Framed(0, Message(102, id, |f.message.payload|, f.message.payload))
  }

  lemma {:induction false} DataPayloads(id: u32, data: seq<Framed>)
    requires AllData(id, data)
    ensures forall i :: 0 <= i < |data| ==> DataOf(data[i], id)
    ensures Payloads(Messages(data)) == Joined(data)
  {
    if data != [] {
      DataPayloads(id, data[1..]);
      PayloadsOne(data[0], data[1..]);
      assert [data[0]] + data[1..] == data;
    } else {
      PayloadsNothing();
    }
  }

  /** The payloads of the messages, one after the other. */
  function Joined(fs: seq<Framed>): seq<byte> {
    if fs == [] then [] else fs[0].message.payload + Joined(fs[1..])
  }

  /**
   Everything a complete upload sends, in order: the request of kind 2, the sizes, the sizes with the name, data that is
   exactly the file, and the end; kinds, arguments and payloads are given by number.
   */
  lemma UploadLayout(rule: NameRule, id: u32, path: seq<byte>, name: seq<byte>, src: Source, allowed: bool)
    requires UploadMessages(rule, id, path, name, src, allowed).error.None?
    ensures var fs := UploadMessages(rule, id, path, name, src, allowed).messages; var n := |fs| - 1;
            && n >= 3 && id != 0 && src.size <= |src.content| && src.size <= 0xFFFF_FFFF && |path| <= 4096
            && Receivable(fs[0]) && Wire(fs[0]) == RequestBytes(id, path, 2)
            && fs[1] == Framed(0, Message(100, id, 1, fs[1].message.payload))
            && InfoBytes(fs[1].message.payload, src.size)
            && fs[2] == Framed(0, Message(101, id, 0x0100_0000, fs[2].message.payload))
            && ItemBytes(fs[2].message.payload, name, src.size)
            && (forall i :: 3 <= i < n ==> DataOf(fs[i], id)) && Joined(fs[3..n]) == src.content[..src.size]
            && fs[n] == Framed(0, Message(104, id, 0, []))
  {
    hide UploadData, Request, Wire, RequestBytes, AnnouncedSize, InfoPayload, ItemPayload, Payloads, InfoBytes,
      ItemBytes, Parts, Joined, UploadMessages;
    var data := UploadShape(rule, id, path, name, src, allowed);
    UploadOnTheWire(rule, id, path, name, src, allowed);
    DataPayloads(id, data);
    InfoLayout(src.size);
    ItemLayout(name, src.size);
    var fs := UploadMessages(rule, id, path, name, src, allowed).messages;
    assert fs[3..|fs| - 1] == data;
    forall i | 3 <= i < |fs| - 1 ensures DataOf(fs[i], id) {
      assert fs[i] == data[i - 3];
    }
  }

  // ----- reading

  /** A message at the front of what has come: mark, a known subtype, an allowed length, all of it, and version 1. */
  predicate WholeInFront(s: seq<byte>) {
    && |s| >= 6 && s[0] == 0x22 && (s[1] == 0 || s[1] == 2) && 12 <= Value(s[2..6]) <= 1048570
    && |s| >= 6 + Value(s[2..6]) && s[6] == 0 && s[7] == 1
  }

  /** The fields of the message are those that stand there. */
  predicate ReadAs(m: Message, s: seq<byte>)
    requires WholeInFront(s)
  {
    && m.kind == Value(s[8..10]) && m.session == Value(s[10..14]) && m.argument == Value(s[14..18])
    && m.payload == s[18..6 + Value(s[2..6])]
  }

  lemma FrontIs(s: seq<byte>)
    ensures WholeInFront(s) <==> Front(s)
    ensures |s| >= 6 ==> Length(s) == 6 + Value(s[2..6])
    ensures |s| >= 8 ==> (U16(s[6], s[7]) == 1 <==> s[6] == 0 && s[7] == 1)
  {
    if |s| >= 6 {
      hide Value;
      assert s[2..6] == [s[2], s[3], s[4], s[5]];
      ValueOfFour(s[2], s[3], s[4], s[5]);
      if |s| >= 8 {
        ValueOfTwo(s[6], s[7]);
      }
    }
  }

  lemma MessageIs(s: seq<byte>)
    requires WholeInFront(s)
    ensures Front(s) && Length(s) == 6 + Value(s[2..6]) && ReadAs(Fields(s, Length(s) - 6), s)
  {
    hide Value;
    FrontIs(s);
    assert s[8..10] == [s[8], s[9]] && s[10..14] == [s[10], s[11], s[12], s[13]];
    assert s[14..18] == [s[14], s[15], s[16], s[17]];
    ValueOfTwo(s[8], s[9]);
    ValueOfFour(s[10], s[11], s[12], s[13]);
    ValueOfFour(s[14], s[15], s[16], s[17]);
  }

  /**
   A whole message in front is read off by its fields, and scanning goes on behind it. Otherwise the scan ends: with
   an error for a wrong subtype, length or version, in this order and as soon as it shows, or by waiting for more.
   */
  lemma ScanReads(s: seq<byte>)
    ensures WholeInFront(s) ==>
              var n := Value(s[2..6]);
              ReadAs(Fields(s, n), s) && Scan(s) == Before([Fields(s, n)], Scan(s[6 + n..]))
    ensures !WholeInFront(s) ==>
              Scan(s) == if s != [] && s[0] != 0x22 then Success(Scanned([], [], Some(s)))
                         else if |s| < 6 then Success(Scanned([], s, None))
                         else if s[1] != 0 && s[1] != 2 then Failure(BadSubtype)
                         else if Value(s[2..6]) < 12 || Value(s[2..6]) > 1048570 then Failure(BadLength)
                         else if |s| < 6 + Value(s[2..6]) then Success(Scanned([], s, None))
                         else Failure(BadVersion)
  {
    FrontIs(s);
    ScanCases(s);
    hide Scan, Value, Front, Fields, Before, U16, U32, ReadAs;
    if WholeInFront(s) {
      MessageIs(s);
      ScanFront(s);
    }
  }
}
