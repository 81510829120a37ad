/** The switches over mask bits: which reads each bit makes the decoder do. */
module BlockSwitches {
  import opened BufferCursors
  import opened Schema
  import opened ReportLayout
  import opened FieldReader

  /** The switch over Event Data Mask bits. */
  method ReadEventDataField(cursor: BufferCursor, bit: nat) returns (o: FieldRead)
    requires cursor.Valid() && bit < 32
    modifies cursor`offset
    ensures cursor.Valid() && Does(EventDataRule(bit), cursor.buf, old(cursor.offset), o, cursor.offset)
  {
    match bit
    case 0 => o := ReadNumber(cursor, 2);
    case 1 => o := ReadShape(cursor, Tuple([U8, U16]));
    case 2 => o := ReadNumber(cursor, 1);
    case 3 => o := ReadNumber(cursor, 1);
    case 4 => o := ReadNumber(cursor, 1);
    case 5 => o := ReadShape(cursor, Tuple([U16, U32]));
    case 6 => o := Nothing;
    case 7 => o := ReadNumber(cursor, 4);
    case 8 => o := ReadPrefixed(cursor, false);
    case 9 => o := ReadOneWire(cursor, OneWireReading(), OneWireRules());
    case 10 => o := ReadShape(cursor, Tuple([Raw(3), Raw(5)]));
    case 11 => o := ReadShape(cursor, Tuple([I8, I8, I8, I8, I8, I8, I8, I8, I8]));
    case 12 => o := ReadShape(cursor, Tuple([U8, U8, I16, I16, I16]));
    case 13 => o := Nothing;
    case 14 => o := ReadShape(cursor, Tuple([U8, U8, U8]));
    case 21 => o := ReadNumber(cursor, 4);
    case 23 => o := ReadNumber(cursor, 4);
    case 25 => o := ReadNumber(cursor, 4);
    case _ => o := Unknown;
  }

  /** The switch over CAN Info Mask 1 bits. */
  method ReadCanInfo1Field(cursor: BufferCursor, bit: nat) returns (o: FieldRead)
    requires cursor.Valid() && bit < 32
    modifies cursor`offset
    ensures cursor.Valid() && Does(CanInfo1Rule(bit), cursor.buf, old(cursor.offset), o, cursor.offset)
  {
    match bit
    case 0 => o := ReadPrefixed(cursor, true);
    case 1 => o := ReadNumber(cursor, 1);
    case 2 => o := ReadNumber(cursor, 4);
    case 3 => o := ReadNumber(cursor, 4);
    case 4 => o := ReadNumber(cursor, 4);
    case 5 => o := ReadNumber(cursor, 2);
    case 6 => o := ReadNumber(cursor, 2);
    case 7 => o := ReadSigned(cursor, 2);
    case 8 => o := ReadShape(cursor, Tuple([U16, U16]));
    case 9 => o := ReadShape(cursor, Tuple([U8, U8]));
    case 10 => o := ReadNumber(cursor, 3);
    case 11 => o := ReadNumber(cursor, 1);
    case 12 => o := ReadNumber(cursor, 4);
    case 13 => o := ReadNumber(cursor, 4);
    case 14 => o := ReadNumber(cursor, 4);
    case 15 => o := ReadNumber(cursor, 4);
    case 16 => o := ReadNumber(cursor, 2);
    case 17 => o := ReadNumber(cursor, 2);
    case 18 => o := ReadNumber(cursor, 2);
    case 19 => o := ReadNumber(cursor, 2);
    case 20 => o := ReadNumber(cursor, 4);
    case 21 => o := ReadNumber(cursor, 4);
    case 22 => o := ReadNumber(cursor, 1);
    case 23 => o := ReadNumber(cursor, 1);
    case 24 => o := ReadNumber(cursor, 4);
    case 25 => o := ReadNumber(cursor, 4);
    case 26 => o := ReadNumber(cursor, 3);
    case 27 => o := ReadNumber(cursor, 3);
    case 28 => o := ReadNumber(cursor, 3);
    case 29 => o := ReadNumber(cursor, 4);
    case 30 => o := ReadNumber(cursor, 2);
    case _ => o := Unknown;
  }

  /** The switch over CAN Info Mask 2 bits. */
  method ReadCanInfo2Field(cursor: BufferCursor, bit: nat) returns (o: FieldRead)
    requires cursor.Valid() && bit < 32
    modifies cursor`offset
    ensures cursor.Valid() && Does(CanInfo2Rule(bit), cursor.buf, old(cursor.offset), o, cursor.offset)
  {
    match bit
    case 0 => o := ReadNumber(cursor, 1);
    case 1 => o := ReadNumber(cursor, 1);
    case 2 => o := ReadNumber(cursor, 1);
    case 3 => o := ReadNumber(cursor, 2);
    case 4 => o := ReadNumber(cursor, 2);
    case 5 => o := ReadNumber(cursor, 2);
    case 6 => o := ReadNumber(cursor, 2);
    case 7 => o := ReadNumber(cursor, 4);
    case 8 => o := ReadNumber(cursor, 4);
    case 9 => o := ReadNumber(cursor, 3);
    case 10 => o := ReadNumber(cursor, 4);
    case 11 => o := ReadNumber(cursor, 4);
    case 12 => o := ReadNumber(cursor, 4);
    case 13 => o := ReadNumber(cursor, 3);
    case 14 => o := ReadSigned(cursor, 2);
    case 15 => o := ReadPrefixed(cursor, true);
    case 16 => o := Nothing;
    case 17 => o := Nothing;
    case 18 => o := ReadPrefixed(cursor, true);
    case 19 => o := ReadNumber(cursor, 3);
    case 20 => o := ReadNumber(cursor, 3);
    case 21 => o := ReadNumber(cursor, 1);
    case 22 => o := ReadSigned(cursor, 4);
    case 23 => o := ReadSigned(cursor, 2);
    case 24 => o := ReadList(cursor, Raw(3), false);
    case 25 => o := ReadShape(cursor, Tuple([U8, U8]));
    case 26 => o := ReadShape(cursor, Tuple([U8, U8]));
    case 27 => o := ReadNumber(cursor, 4);
    case 28 => o := ReadNumber(cursor, 4);
    case 29 => o := ReadList(cursor, Tuple([U8, U16, U24, U8]), false);
    case 30 => o := ReadNumber(cursor, 2);
    case _ => o := Unknown;
  }

  /** The switch over Electric Info Mask 1 bits. */
  method ReadElectricInfo1Field(cursor: BufferCursor, bit: nat) returns (o: FieldRead)
    requires cursor.Valid() && bit < 32
    modifies cursor`offset
    ensures cursor.Valid() && Does(ElectricInfo1Rule(bit), cursor.buf, old(cursor.offset), o, cursor.offset)
  {
    match bit
    case 0 => o := ReadNumber(cursor, 2);
    case 1 => o := ReadNumber(cursor, 2);
    case 2 => o := ReadNumber(cursor, 4);
    case 3 => o := ReadNumber(cursor, 1);
    case 4 => o := ReadNumber(cursor, 2);
    case 5 => o := ReadSigned(cursor, 2);
    case 6 => o := ReadNumber(cursor, 2);
    case 7 => o := ReadSigned(cursor, 2);
    case 8 => o := ReadNumber(cursor, 1);
    case 9 => o := ReadNumber(cursor, 4);
    case 10 => o := ReadNumber(cursor, 4);
    case 11 => o := ReadNumber(cursor, 4);
    case 12 => o := ReadNumber(cursor, 1);
    case _ => o := Unknown;
  }

  /** The switch over CAN Info Mask 3 bits. */
  method ReadCanInfo3Field(cursor: BufferCursor, bit: nat) returns (o: FieldRead)
    requires cursor.Valid() && bit < 32
    modifies cursor`offset
    ensures cursor.Valid() && Does(CanInfo3Rule(bit), cursor.buf, old(cursor.offset), o, cursor.offset)
  {
    match bit
    case 0 => o := ReadNumber(cursor, 4);
    case 2 => o := ReadNumber(cursor, 4);
    case 3 => o := ReadNumber(cursor, 4);
    case 4 => o := ReadNumber(cursor, 4);
    case 8 => o := ReadNumber(cursor, 1);
    case _ => o := Unknown;
  }
}
