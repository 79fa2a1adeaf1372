/** `TenantHierarchy.getNode`: a struct that holds a string and an address array, so
    its two inner offsets count from the start of the struct. */
module TenantNode {
  import opened Basics
  import opened Abi
  import opened AbiDecode
  import Hex
  import Utf8

  /** The struct as the contract holds it. */
  datatype ChainNode = ChainNode(
    parent: Word,
    self: Word,
    displayName: string,
    level: U64,
    salt: Word,
    admins: seq<Address>,
    threshold: U64,
    classificationMax: U64,
    exists_: bool)

  /** What the reader keeps of it. */
  datatype Node = Node(
    parent: Word,
    displayName: string,
    level: Byte,
    admins: seq<string>,
    threshold: Byte,
    classificationMax: Byte,
    exists_: bool)

  function PadAll(admins: seq<Address>): (ws: seq<Word>)
    ensures |ws| == |admins|
  {
    seq(|admins|, i requires 0 <= i < |admins| => PadAddress(admins[i]))
  }

  function Fields(n: ChainNode): (args: seq<Arg>)
    ensures |args| == 9
  {
    [WordArg(n.parent), WordArg(n.self), StrArg(Utf8.Encode(n.displayName)), UintArg(n.level), WordArg(n.salt),
     WordsArg(PadAll(n.admins)), UintArg(n.threshold), UintArg(n.classificationMax),
     UintArg(if n.exists_ then 1 else 0)]
  }

  /** The return data of the call: an offset to the struct, then the struct. */
  function Return(n: ChainNode): Bytes {
    WordOf(32) + Encoding(Fields(n))
  }

  /** `as u8` keeps the low byte. */
  function LowByte(n: U64): Byte {
    n % 256
  }

  function AddressTexts(admins: seq<Address>): (r: seq<string>)
    ensures |r| == |admins|
  {
    seq(|admins|, i requires 0 <= i < |admins| => Hex.Encode(admins[i]))
  }

  /** The fixed part of the struct, read word by word from index `base`. */
  datatype Prefix = Prefix(parent: Word, nameOff: U64, level: U64, adminsOff: U64, threshold: U64,
                           classificationMax: U64, exists_: U64)

  function ReadPrefix(b: Bytes, base: nat): Result<Prefix, DecodeError> {
    var parent := WordAt(b, base);
    var nameOff, level := WordU64(b, base + 2), WordU64(b, base + 3);
    var adminsOff, threshold := WordU64(b, base + 5), WordU64(b, base + 6);
    var classificationMax, exists_ := WordU64(b, base + 7), WordU64(b, base + 8);
    if parent.None? then Err(Missing("parent"))
    else if nameOff.None? then Err(Missing("display_name"))
    else if level.None? then Err(Missing("level"))
    else if adminsOff.None? then Err(Missing("admins"))
    else if threshold.None? then Err(Missing("threshold"))
    else if classificationMax.None? then Err(Missing("classification_max"))
    else if exists_.None? then Err(Missing("exists"))
    else Ok(Prefix(parent.value, nameOff.value, level.value, adminsOff.value, threshold.value,
                   classificationMax.value, exists_.value))
  }

  function DecodeTenantNode(b: Bytes): Result<Node, DecodeError> {
    match WordU64(b, 0)
    case None => Err(Missing("struct"))
    case Some(at) =>
      if at % 32 != 0 then Err(Unaligned(at))
      else match ReadPrefix(b, at / 32)
        case Err(e) => Err(e)
        case Ok(p) =>
          match StringAt(b, at + p.nameOff)
          case Err(e) => Err(e)
          case Ok(name) =>
            match AddressArrayAt(b, at + p.adminsOff)
            case Err(e) => Err(e)
            case Ok(admins) =>
              Ok(Node(p.parent, name, LowByte(p.level), admins, LowByte(p.threshold),
                      LowByte(p.classificationMax), p.exists_ == 1))
  }

  lemma {:induction false} FieldHere(n: ChainNode, i: nat)
    requires i < 9
    ensures WordAt(Return(n), 1 + i) == Some(Head(Fields(n), i))
    ensures Here(Return(n), 32 + Offset(Fields(n), i), Tail(Fields(n)[i]))
    ensures (32 + Offset(Fields(n), i)) % 32 == 0
  {
    Layout(WordOf(32), 1, Fields(n), i);
  }

  lemma {:induction false} NumberHere(n: ChainNode, i: nat)
    requires i < 9 && |Return(n)| < TOP && (Fields(n)[i].UintArg? || Fields(n)[i].IsDynamic())
    ensures var x := if Fields(n)[i].UintArg? then Fields(n)[i].n else Offset(Fields(n), i);
            x < TOP && WordU64(Return(n), 1 + i) == Some(x)
  {
    FieldHere(n, i);
    WordU64IsExact(Return(n), 1 + i, if Fields(n)[i].UintArg? then Fields(n)[i].n else Offset(Fields(n), i));
  }

  lemma {:induction false} PrefixHere(n: ChainNode)
    requires |Return(n)| < TOP
    ensures Offset(Fields(n), 2) < TOP && Offset(Fields(n), 5) < TOP
    ensures ReadPrefix(Return(n), 1)
            == Ok(Prefix(n.parent, Offset(Fields(n), 2), n.level, Offset(Fields(n), 5), n.threshold,
                         n.classificationMax, if n.exists_ then 1 else 0))
  {
    FieldHere(n, 0);
    NumberHere(n, 2);
    NumberHere(n, 3);
    NumberHere(n, 5);
    NumberHere(n, 6);
    NumberHere(n, 7);
    NumberHere(n, 8);
  }

  lemma {:induction false} StructHere(n: ChainNode)
    ensures WordU64(Return(n), 0) == Some(32)
  {
    var b := Return(n);
    assert b[0..32] == WordOf(32);
    WordU64IsExact(b, 0, 32);
  }

  lemma {:induction false} NameHere(n: ChainNode)
    requires |Return(n)| < TOP
    ensures StringAt(Return(n), 32 + Offset(Fields(n), 2)) == Ok(n.displayName)
  {
    FieldHere(n, 2);
    ReadsPayload(Return(n), 32 + Offset(Fields(n), 2), Utf8.Encode(n.displayName));
    Utf8.RoundTrip(n.displayName);
  }

  lemma {:induction false} AdminsHere(n: ChainNode)
    requires |Return(n)| < TOP
    ensures AddressArrayAt(Return(n), 32 + Offset(Fields(n), 5)) == Ok(AddressTexts(n.admins))
  {
    FieldHere(n, 5);
    ReadsWords(Return(n), 32 + Offset(Fields(n), 5), PadAll(n.admins));
    PaddedTexts(n.admins);
  }

  lemma {:induction false} PaddedTexts(admins: seq<Address>)
    ensures Texts(PadAll(admins)) == AddressTexts(admins)
  {
    forall i | 0 <= i < |admins| ensures AddressText(PadAll(admins)[i]) == Hex.Encode(admins[i]) {
      assert PadAddress(admins[i])[12..] == admins[i];
    }
    assert Texts(PadAll(admins)) == AddressTexts(admins);
  }

  lemma {:induction false} DecodeParts(b: Bytes, p: Prefix, name: string, admins: seq<string>)
    requires WordU64(b, 0) == Some(32) && ReadPrefix(b, 1) == Ok(p)
    requires StringAt(b, 32 + p.nameOff) == Ok(name) && AddressArrayAt(b, 32 + p.adminsOff) == Ok(admins)
    ensures DecodeTenantNode(b) == Ok(Node(p.parent, name, LowByte(p.level), admins, LowByte(p.threshold),
                                           LowByte(p.classificationMax), p.exists_ == 1))
  {
  }

  /** The standard encoding of any node decodes to that node, its three small numbers
      cut to a byte. */
  lemma {:induction false} DecodesTheStandardEncoding(n: ChainNode)
    requires |Return(n)| < TOP
    ensures DecodeTenantNode(Return(n))
            == Ok(Node(n.parent, n.displayName, LowByte(n.level), AddressTexts(n.admins), LowByte(n.threshold),
                       LowByte(n.classificationMax), n.exists_))
  {
    StructHere(n);
    PrefixHere(n);
    NameHere(n);
    AdminsHere(n);
    DecodeParts(Return(n), ReadPrefix(Return(n), 1).value, n.displayName, AddressTexts(n.admins));
  }

  lemma {:induction false} LowByteKeeps(n: U64)
    ensures LowByte(n) == n <==> n < 256
  {
  }

  /** So the three numbers come back as they were exactly when each is a byte. */
  lemma {:induction false} SmallFieldsSurvive(n: ChainNode)
    requires |Return(n)| < TOP
    ensures var d := DecodeTenantNode(Return(n));
            d.Ok? && ((d.value.level == n.level && d.value.threshold == n.threshold
                       && d.value.classificationMax == n.classificationMax)
                      <==> (n.level < 256 && n.threshold < 256 && n.classificationMax < 256))
  {
    DecodesTheStandardEncoding(n);
    LowByteKeeps(n.level);
    LowByteKeeps(n.threshold);
    LowByteKeeps(n.classificationMax);
  }

  /** Two nodes the reader cannot tell apart differ only in what it drops: their own id,
      the salt, and the high bytes of the three numbers. */
  lemma {:induction false} NothingElseIsLost(m: ChainNode, n: ChainNode)
    requires |Return(m)| < TOP && |Return(n)| < TOP
    requires DecodeTenantNode(Return(m)) == DecodeTenantNode(Return(n))
    ensures m == n.(self := m.self, salt := m.salt, level := m.level, threshold := m.threshold,
                    classificationMax := m.classificationMax)
  {
    DecodesTheStandardEncoding(m);
    DecodesTheStandardEncoding(n);
    assert AddressTexts(m.admins) == AddressTexts(n.admins);
    forall i | 0 <= i < |m.admins| ensures m.admins[i] == n.admins[i] {
      assert AddressTexts(m.admins)[i] == AddressTexts(n.admins)[i];
      Hex.EncodeInjective(m.admins[i], n.admins[i]);
    }
  }
}
