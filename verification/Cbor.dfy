/** The CBOR decoder of the passkey code (RFC 8949, section 3): what a byte string decodes to, that a
    decoded item depends on no byte after it, and that decoding inverts encoding. */
module Cbor {
  import opened ByteStrings
  import opened Lists

  /** A decoded item, by the Go type it is returned as; Nint is an int64. */
  datatype Value =
    | Uint(n: nat)
    | Nint(i: int)
    | Bytes(data: seq<byte>)
    | Text(text: seq<byte>)
    | Array(items: seq<Value>)
    | Map(entries: map<Value, Value>)
    | Bool(b: bool)
    | Nil

  datatype Failure = UnexpectedEnd | UnsupportedLength | Panicked

  /** A value and the bytes after it, or why there is none. */
  datatype Result<+T> = Ok(value: T, rest: seq<byte>) | Failed(failure: Failure)

  datatype Head = Head(major: nat, info: nat, val: nat)

  const TWO_63: nat := 0x8000_0000_0000_0000
  const TWO_64: nat := 0x1_0000_0000_0000_0000

  /** Slices above this size make the runtime panic; a slice of values takes 16 bytes for each. */
  const MAX_ALLOC: nat := 0x1_0000_0000_0000
  const VALUE_SIZE: nat := 16

  // ---------------------------------------------------------------- what a byte string decodes to

  /** How many argument bytes follow the initial byte; 28 to 31 are not supported. */
  function Width(info: nat): (w: nat) {
    if info == 24 then 1 else if info == 25 then 2 else if info == 26 then 4 else if info == 27 then 8 else 0
  }

  function ReadHead(s: seq<byte>): (r: Result<Head>)
    ensures r.Ok? ==> |r.rest| < |s|
  {
    if s == [] then Failed(UnexpectedEnd)
    else
      var major, info := s[0] as nat / 32, s[0] as nat % 32;
      var w := Width(info);
      if info > 27 then Failed(UnsupportedLength)
      else if |s| < 1 + w then Failed(UnexpectedEnd)
      else Ok(Head(major, info, if info < 24 then info else BigEndian(s[1..1 + w])), s[1 + w..])
  }

  function TakeBytes(s: seq<byte>, n: nat): (r: Result<seq<byte>>)
    ensures r.Ok? ==> |r.rest| <= |s|
  {
    if n > MAX_ALLOC then Failed(Panicked)
    else if |s| < n then Failed(UnexpectedEnd)
    else Ok(s[..n], s[n..])
  }

  /** -1 - int64(n): the conversion wraps from 2^63 on. */
  function NegativeOf(n: nat): int {
    if n < TWO_63 then -1 - n else -1 - (n - TWO_64)
  }

  /** What Go accepts as a key of a map[any]any. */
  predicate Hashable(v: Value) {
    !v.Bytes? && !v.Array? && !v.Map?
  }

  function SimpleValue(h: Head): Value {
    if h.info == 20 then Bool(false) else if h.info == 21 then Bool(true) else if h.info == 22 then Nil else Uint(h.val)
  }

  function Wrap<T>(r: Result<T>, f: T -> Value): Result<Value> {
    match r
    case Ok(x, rest) => Ok(f(x), rest)
    case Failed(e) => Failed(e)
  }

  function AsBytes(data: seq<byte>): Value { Bytes(data) }
  function AsText(text: seq<byte>): Value { Text(text) }
  function AsArray(items: seq<Value>): Value { Array(items) }
  function AsMap(entries: map<Value, Value>): Value { Map(entries) }

  /** One data item from the front of s. */
  function Decode(s: seq<byte>): (r: Result<Value>)
    ensures r.Ok? ==> |r.rest| < |s|
    decreases |s|, 0, 0
  {
    var h := ReadHead(s);
    match h
    case Failed(e) => Failed(e)
    case Ok(head, rest) => DecodeBody(head, rest)
  }

  function DecodeBody(h: Head, s: seq<byte>): (r: Result<Value>)
    ensures r.Ok? ==> |r.rest| <= |s|
    decreases |s|, 2, 0
  {
    if h.major == 0 then Ok(Uint(h.val), s)
    else if h.major == 1 then Ok(Nint(NegativeOf(h.val)), s)
    else if h.major == 2 then Wrap(TakeBytes(s, h.val), AsBytes)
    else if h.major == 3 then Wrap(TakeBytes(s, h.val), AsText)
    else if h.major == 4 then
      if h.val * VALUE_SIZE > MAX_ALLOC then Failed(Panicked) else Wrap(DecodeItems(s, h.val), AsArray)
    else if h.major == 5 then Wrap(DecodeEntries(s, h.val, map[]), AsMap)
    else if h.major == 6 then Decode(s)
    else Ok(SimpleValue(h), s)
  }

  /** n items one after the other. */
  function DecodeItems(s: seq<byte>, n: nat): (r: Result<seq<Value>>)
    ensures r.Ok? ==> |r.rest| <= |s| && |r.value| == n
    decreases |s|, 1, n
  {
    if n == 0 then Ok([], s)
    else
      var first := Decode(s);
      match first
      case Failed(e) => Failed(e)
      case Ok(v, rest) =>
        match DecodeItems(rest, n - 1)
        case Failed(e) => Failed(e)
        case Ok(vs, rest') => Ok([v] + vs, rest')
  }

  /** n key-value pairs added to m; a repeated key overwrites, an unhashable one panics once its
      value has been read. */
  function DecodeEntries(s: seq<byte>, n: nat, m: map<Value, Value>): (r: Result<map<Value, Value>>)
    ensures r.Ok? ==> |r.rest| <= |s|
    decreases |s|, 1, n
  {
    if n == 0 then Ok(m, s)
    else
      var key := Decode(s);
      match key
      case Failed(e) => Failed(e)
      case Ok(k, afterKey) =>
        var value := Decode(afterKey);
        match value
        case Failed(e) => Failed(e)
        case Ok(v, rest) =>
          if !Hashable(k) then Failed(Panicked) else DecodeEntries(rest, n - 1, m[k := v])
  }

  // ---------------------------------------------------------------- the decoder

  /** A stream of bytes that is consumed from the front. */
  class Reader {
    const data: seq<byte>
    var pos: nat

    ghost predicate Valid()
      reads this
    {
      pos <= |data|
    }

    function Rest(): seq<byte>
      requires Valid()
      reads this
    {
      data[pos..]
    }

    constructor (data: seq<byte>)
      ensures Valid() && this.data == data && Rest() == data
    {
      this.data, pos := data, 0;
    }

    /** Reads exactly n bytes or fails. */
    method ReadFull(n: nat) returns (b: Option<seq<byte>>)
      requires Valid()
      modifies this
      ensures Valid()
      ensures b.Some? <==> |old(Rest())| >= n
      ensures b.Some? ==> b.value == old(Rest())[..n] && Rest() == old(Rest())[n..]
    {
      if |data| - pos < n {
        return None;
      }
      b := Some(data[pos..pos + n]);
      pos := pos + n;
    }

    method ReadLength(info: nat) returns (val: Result<nat>)
      requires Valid() && info < 32
      modifies this
      ensures Valid()
      ensures var w := Width(info);
              val == if info > 27 then Failed(UnsupportedLength)
                     else if |old(Rest())| < w then Failed(UnexpectedEnd)
                     else Ok(if info < 24 then info else BigEndian(old(Rest())[..w]), old(Rest())[w..])
      ensures val.Ok? ==> Rest() == val.rest
    {
      if info < 24 {
        return Ok(info, Rest());
      }
      if info > 27 {
        return Failed(UnsupportedLength);
      }
      var b := ReadFull(Width(info));
      val := if b == None then Failed(UnexpectedEnd) else Ok(BigEndian(b.value), Rest());
    }

    /** Reads one data item: exactly what the specification says, and nothing beyond it. */
    method DecodeItem() returns (r: Result<Value>)
      requires Valid()
      modifies this
      ensures Valid()
      ensures r == Decode(old(Rest()))
      ensures r.Ok? ==> Rest() == r.rest
      decreases |Rest()|, 0, 0
    {
      ghost var s := Rest();
      var header := ReadFull(1);
      if header == None {
        return Failed(UnexpectedEnd);
      }
      var major, info := header.value[0] as nat / 32, header.value[0] as nat % 32;
      ghost var tail := Rest();
      assert tail == s[1..];
      var length := ReadLength(info);
      match length {
        case Failed(e) =>
          return Failed(e);
        case Ok(val, rest) =>
          assert s[1..1 + Width(info)] == tail[..Width(info)] && s[1 + Width(info)..] == rest;
          r := DecodeTail(major, info, val);
      }
    }

    /** The part of an item after its head. */
    method DecodeTail(major: nat, info: nat, val: nat) returns (r: Result<Value>)
      requires Valid() && major < 8
      modifies this
      ensures Valid()
      ensures r == DecodeBody(Head(major, info, val), old(Rest()))
      ensures r.Ok? ==> Rest() == r.rest
      decreases |Rest()|, 2, 0
    {
      match major {
        case 0 => r := Ok(Uint(val), Rest());
        case 1 => r := Ok(Nint(NegativeOf(val)), Rest());
        case 2 =>
          if val > MAX_ALLOC {
            return Failed(Panicked);
          }
          var b := ReadFull(val);
          r := if b == None then Failed(UnexpectedEnd) else Ok(Bytes(b.value), Rest());
        case 3 =>
          if val > MAX_ALLOC {
            return Failed(Panicked);
          }
          var b := ReadFull(val);
          r := if b == None then Failed(UnexpectedEnd) else Ok(Text(b.value), Rest());
        case 4 =>
          if val * VALUE_SIZE > MAX_ALLOC {
            return Failed(Panicked);
          }
          r := DecodeArray(val);
        case 5 => r := DecodeMap(val);
        case 6 => r := DecodeItem();
        case _ =>
          r := Ok(SimpleValue(Head(major, info, val)), Rest());
      }
    }

    method DecodeArray(val: nat) returns (r: Result<Value>)
      requires Valid()
      modifies this
      ensures Valid()
      ensures r == Wrap(DecodeItems(old(Rest()), val), AsArray)
      ensures r.Ok? ==> Rest() == r.rest
      decreases |Rest()|, 1, val
    {
      hide Decode;
      hide DecodeItems;
      hide Prefixed;
      var arr := new Value[val](_ => Nil);
      ghost var s := Rest();
      NothingDone(DecodeItems(s, val));
      assert arr[..0] == [];
      for i := 0 to val
        invariant Valid() && |Rest()| <= |s|
        invariant DecodeItems(s, val) == Prefixed(arr[..i], DecodeItems(Rest(), val - i))
      {
        ghost var before, from := arr[..i], Rest();
        OneMoreDone(before, from, val - i);
        var elem := DecodeItem();
        if elem.Failed? {
          return Failed(elem.failure);
        }
        arr[i] := elem.value;
        assert arr[..i + 1] == before + [elem.value];
      }
      AllDone(arr[..], Rest());
      assert arr[..val] == arr[..];
      r := Ok(Array(arr[..]), Rest());
    }

    method DecodeMap(val: nat) returns (r: Result<Value>)
      requires Valid()
      modifies this
      ensures Valid()
      ensures r == Wrap(DecodeEntries(old(Rest()), val, map[]), AsMap)
      ensures r.Ok? ==> Rest() == r.rest
      decreases |Rest()|, 1, val
    {
      hide Decode;
      hide Hashable;
      var m: map<Value, Value> := map[];
      ghost var s := Rest();
      for i := 0 to val
        invariant Valid() && |Rest()| <= |s|
        invariant DecodeEntries(s, val, map[]) == DecodeEntries(Rest(), val - i, m)
      {
        var k := DecodeItem();
        if k.Failed? {
          return Failed(k.failure);
        }
        var v := DecodeItem();
        if v.Failed? {
          return Failed(v.failure);
        }
        if !Hashable(k.value) {
          return Failed(Panicked);
        }
        m := m[k.value := v.value];
      }
      r := Ok(Map(m), Rest());
    }
  }

  lemma OneMoreDone(done: seq<Value>, s: seq<byte>, n: nat)
    requires n > 0
    ensures Prefixed(done, DecodeItems(s, n)) ==
            match Decode(s)
            case Failed(e) => Failed(e)
            case Ok(v, rest) => Prefixed(done + [v], DecodeItems(rest, n - 1))
  {
    if Decode(s).Ok? {
      var v, tail := Decode(s).value, DecodeItems(Decode(s).rest, n - 1);
      if tail.Ok? {
        assert done + ([v] + tail.value) == (done + [v]) + tail.value;
      }
    }
  }

  lemma AllDone(done: seq<Value>, s: seq<byte>)
    ensures Prefixed(done, DecodeItems(s, 0)) == Ok(done, s)
  {
    assert done + [] == done;
  }

  lemma NothingDone(r: Result<seq<Value>>)
    ensures Prefixed([], r) == r
  {
    if r.Ok? {
      assert [] + r.value == r.value;
    }
  }

  ghost function Prefixed(done: seq<Value>, r: Result<seq<Value>>): Result<seq<Value>> {
    match r
    case Ok(vs, rest) => Ok(done + vs, rest)
    case Failed(e) => Failed(e)
  }

  // ---------------------------------------------------------------- decoding looks at nothing else

  /** The initial byte and its argument are read alone, whatever follows. */
  lemma HeadReads(s: seq<byte>) returns (c: seq<byte>)
    requires ReadHead(s).Ok?
    ensures s == c + ReadHead(s).rest && c != []
    ensures forall t :: ReadHead(c + t) == Ok(ReadHead(s).value, t)
  {
    var w := Width(s[0] as nat % 32);
    c := s[..1 + w];
    forall t
      ensures ReadHead(c + t) == Ok(ReadHead(s).value, t)
    {
      assert (c + t)[0] == s[0] && (c + t)[1..1 + w] == s[1..1 + w] && (c + t)[1 + w..] == t;
    }
  }

  lemma BytesRead(s: seq<byte>, n: nat) returns (c: seq<byte>)
    requires TakeBytes(s, n).Ok?
    ensures s == c + TakeBytes(s, n).rest
    ensures forall t :: TakeBytes(c + t, n) == Ok(TakeBytes(s, n).value, t)
  {
    c := s[..n];
    forall t
      ensures TakeBytes(c + t, n) == Ok(TakeBytes(s, n).value, t)
    {
      assert (c + t)[..n] == c && (c + t)[n..] == t;
    }
  }

  /** A successful decode is decided by the bytes it consumes, at least one: whatever is put after
      them, the same item comes out and what was put there is left. */
  lemma {:induction false} DecodeReads(s: seq<byte>) returns (c: seq<byte>)
    requires Decode(s).Ok?
    ensures s == c + Decode(s).rest && c != []
    ensures forall t :: Decode(c + t) == Ok(Decode(s).value, t)
    decreases |s|, 0, 0
  {
    hide ReadHead;
    hide DecodeBody;
    var h := ReadHead(s);
    var a := HeadReads(s);
    var b := BodyReads(h.value, h.rest);
    c := a + b;
    forall t
      ensures Decode(c + t) == Ok(Decode(s).value, t)
    {
      assert c + t == a + (b + t);
    }
  }

  lemma {:induction false} BodyReads(h: Head, s: seq<byte>) returns (c: seq<byte>)
    requires DecodeBody(h, s).Ok?
    ensures s == c + DecodeBody(h, s).rest
    ensures forall t :: DecodeBody(h, c + t) == Ok(DecodeBody(h, s).value, t)
    decreases |s|, 2, 0
  {
    hide Decode;
    hide TakeBytes;
    hide DecodeItems;
    hide DecodeEntries;
    c := [];
    if h.major == 2 || h.major == 3 {
      c := BytesRead(s, h.val);
    } else if h.major == 4 {
      c := ItemsRead(s, h.val);
    } else if h.major == 5 {
      c := EntriesRead(s, h.val, map[]);
    } else if h.major == 6 {
      c := DecodeReads(s);
    } else {
      assert [] + s == s && forall t: seq<byte> :: [] + t == t;
    }
  }

  lemma {:induction false} ItemsRead(s: seq<byte>, n: nat) returns (c: seq<byte>)
    requires DecodeItems(s, n).Ok?
    ensures s == c + DecodeItems(s, n).rest
    ensures forall t :: DecodeItems(c + t, n) == Ok(DecodeItems(s, n).value, t)
    decreases |s|, 1, n
  {
    hide Decode;
    c := [];
    if n == 0 {
      assert forall t: seq<byte> :: [] + t == t;
    } else {
      var a := DecodeReads(s);
      var b := ItemsRead(Decode(s).rest, n - 1);
      c := a + b;
      forall t
        ensures DecodeItems(c + t, n) == Ok(DecodeItems(s, n).value, t)
      {
        assert c + t == a + (b + t);
      }
    }
  }

  lemma {:induction false} EntriesRead(s: seq<byte>, n: nat, m: map<Value, Value>) returns (c: seq<byte>)
    requires DecodeEntries(s, n, m).Ok?
    ensures s == c + DecodeEntries(s, n, m).rest
    ensures forall t :: DecodeEntries(c + t, n, m) == Ok(DecodeEntries(s, n, m).value, t)
    decreases |s|, 1, n
  {
    hide Decode;
    c := [];
    if n == 0 {
      assert forall t: seq<byte> :: [] + t == t;
    } else {
      var a := DecodeReads(s);
      var k := Decode(s);
      var b := DecodeReads(k.rest);
      var v := Decode(k.rest);
      var d := EntriesRead(v.rest, n - 1, m[k.value := v.value]);
      c := a + (b + d);
      assert s == c + DecodeEntries(s, n, m).rest;
      forall t
        ensures DecodeEntries(c + t, n, m) == Ok(DecodeEntries(s, n, m).value, t)
      {
        assert c + t == a + ((b + d) + t) && (b + d) + t == b + (d + t);
      }
    }
  }

  /** Two texts that start with the same consumed bytes decode alike. */
  lemma PrefixDetermined(s: seq<byte>, t: seq<byte>)
    requires Decode(s).Ok?
    requires var n := |s| - |Decode(s).rest|; |t| >= n && t[..n] == s[..n]
    ensures var n := |s| - |Decode(s).rest|; n >= 1 && Decode(t) == Ok(Decode(s).value, t[n..])
  {
    hide Decode;
    var c := DecodeReads(s);
    assert s[..|c|] == c && t == c + t[|c|..];
  }

  // ---------------------------------------------------------------- decoding inverts encoding

  /** The argument of an item and the info bits that say how it is written; any width that holds the
      value will do. */
  datatype Arg = Arg(value: nat, info: nat)
  {
    ghost predicate Valid() {
      || (info < 24 && value == info)
      || (info == 24 && value < 0x100) || (info == 25 && value < 0x1_0000)
      || (info == 26 && value < 0x1_0000_0000) || (info == 27 && value < TWO_64)
    }
  }

  /** A definite-length data item as section 3 of RFC 8949 writes it. */
  datatype Item =
    | UintItem(arg: Arg)
    | NintItem(arg: Arg)
    | BytesItem(arg: Arg, data: seq<byte>)
    | TextItem(arg: Arg, text: seq<byte>)
    | ArrayItem(arg: Arg, items: seq<Item>)
    | MapItem(arg: Arg, entries: seq<Entry>)
    | TagItem(arg: Arg, item: Item)
    | SimpleItem(arg: Arg)

  datatype Entry = Entry(key: Item, value: Item)

  function EncodeHead(major: nat, a: Arg): seq<byte>
    requires major < 8 && a.info < 32
  {
    [(major * 32 + a.info) as byte]
    + match a.info
      case 24 => ToBytes(a.value, 1)
      case 25 => ToBytes(a.value, 2)
      case 26 => ToBytes(a.value, 4)
      case 27 => ToBytes(a.value, 8)
      case _ => []
  }

  lemma Powers()
    ensures Power(1) == 0x100 && Power(2) == 0x1_0000 && Power(4) == 0x1_0000_0000 && Power(8) == TWO_64
  {
    assert Power(3) == 0x100_0000 && Power(5) == 0x100_0000_0000 && Power(6) == 0x1_0000_0000_0000;
    assert Power(7) == 0x100_0000_0000_0000;
  }

  lemma HeadBack(major: nat, a: Arg, t: seq<byte>)
    requires major < 8 && a.Valid()
    ensures ReadHead(EncodeHead(major, a) + t) == Ok(Head(major, a.info, a.value), t)
  {
    var e, w := EncodeHead(major, a), Width(a.info);
    Powers();
    assert e == [(major * 32 + a.info) as byte] + ToBytes(a.value, w);
    assert (e + t)[0] == e[0] && (e + t)[1..1 + w] == ToBytes(a.value, w) && (e + t)[1 + w..] == t;
    assert e[0] as nat == major * 32 + a.info;
    assert (major * 32 + a.info) / 32 == major && (major * 32 + a.info) % 32 == a.info;
    if a.info >= 24 {
      BytesBack(a.value, w);
    }
  }

  /** Lengths fit, every argument is written in a width that holds it, and map keys are of a kind Go
      accepts. */
  ghost predicate WellFormed(item: Item) {
    match item
    case UintItem(arg) => arg.Valid()
    case NintItem(arg) => arg.Valid()
    case BytesItem(arg, data) => arg.Valid() && arg.value == |data| <= MAX_ALLOC
    case TextItem(arg, text) => arg.Valid() && arg.value == |text| <= MAX_ALLOC
    case ArrayItem(arg, items) => arg.Valid() && arg.value == |items| && |items| * VALUE_SIZE <= MAX_ALLOC
        && AllWellFormed(items)
    case MapItem(arg, entries) => arg.Valid() && arg.value == |entries| && EntriesWellFormed(entries)
    case TagItem(arg, inner) => arg.Valid() && WellFormed(inner)
    case SimpleItem(arg) => arg.Valid()
  }

  ghost predicate AllWellFormed(items: seq<Item>) {
    items == [] || (WellFormed(items[0]) && AllWellFormed(items[1..]))
  }

  ghost predicate EntriesWellFormed(entries: seq<Entry>) {
    entries == [] || (EntryWellFormed(entries[0]) && EntriesWellFormed(entries[1..]))
  }

  ghost predicate EntryWellFormed(e: Entry) {
    WellFormed(e.key) && WellFormed(e.value) && KeyKind(e.key)
  }

  /** What may be a map key, whatever tags it carries: an integer, a text, or a simple value. */
  ghost predicate KeyKind(item: Item) {
    match item
    case UintItem(_) | NintItem(_) | TextItem(_, _) | SimpleItem(_) => true
    case TagItem(_, inner) => KeyKind(inner)
    case _ => false
  }

  lemma {:induction false} KeyKinds(item: Item)
    ensures KeyKind(item) <==> Hashable(ValueOf(item))
  {
    hide ValuesOf;
    hide AddAll;
    if item.TagItem? {
      KeyKinds(item.item);
    }
  }

  ghost function Encode(item: Item): seq<byte>
    requires WellFormed(item)
  {
    match item
    case UintItem(arg) => EncodeHead(0, arg)
    case NintItem(arg) => EncodeHead(1, arg)
    case BytesItem(arg, data) => EncodeHead(2, arg) + data
    case TextItem(arg, text) => EncodeHead(3, arg) + text
    case ArrayItem(arg, items) => EncodeHead(4, arg) + EncodeAll(items)
    case MapItem(arg, entries) => EncodeHead(5, arg) + EncodeEntries(entries)
    case TagItem(arg, inner) => EncodeHead(6, arg) + Encode(inner)
    case SimpleItem(arg) => EncodeHead(7, arg)
  }

  ghost function EncodeAll(items: seq<Item>): seq<byte>
    requires AllWellFormed(items)
  {
    if items == [] then [] else Encode(items[0]) + EncodeAll(items[1..])
  }

  ghost function EncodeEntries(entries: seq<Entry>): seq<byte>
    requires EntriesWellFormed(entries)
  {
    if entries == [] then [] else EncodeEntry(entries[0]) + EncodeEntries(entries[1..])
  }

  ghost function EncodeEntry(e: Entry): seq<byte>
    requires EntryWellFormed(e)
  {
    Encode(e.key) + Encode(e.value)
  }

  /** The tree an item stands for. Tags are dropped; simple values other than false, true and null, and
      floating-point numbers, come out as their argument. */
  function ValueOf(item: Item): Value {
    match item
    case UintItem(arg) => Uint(arg.value)
    case NintItem(arg) => Nint(NegativeOf(arg.value))
    case BytesItem(_, data) => Bytes(data)
    case TextItem(_, text) => Text(text)
    case ArrayItem(_, items) => Array(ValuesOf(items))
    case MapItem(_, entries) => Map(AddAll(map[], entries))
    case TagItem(_, inner) => ValueOf(inner)
    case SimpleItem(arg) =>
      if arg.info == 20 then Bool(false) else if arg.info == 21 then Bool(true) else if arg.info == 22 then Nil
      else Uint(arg.value)
  }

  function ValuesOf(items: seq<Item>): (r: seq<Value>)
    ensures |r| == |items|
  {
    if items == [] then [] else [ValueOf(items[0])] + ValuesOf(items[1..])
  }

  /** The entries in order on top of m; the last of equal keys wins. */
  function AddAll(m: map<Value, Value>, entries: seq<Entry>): map<Value, Value>
    decreases entries
  {
    if entries == [] then m else AddAll(m[KeyOf(entries[0]) := FieldOf(entries[0])], entries[1..])
  }

  function KeyOf(e: Entry): Value {
    ValueOf(e.key)
  }

  function FieldOf(e: Entry): Value {
    ValueOf(e.value)
  }

  /** With distinct keys the map holds exactly the entries. */
  lemma {:induction false} DistinctKeysAllKept(m: map<Value, Value>, entries: seq<Entry>)
    requires forall i, j :: 0 <= i < j < |entries| ==> KeyOf(entries[i]) != KeyOf(entries[j])
    ensures var r := AddAll(m, entries);
            && (forall i :: 0 <= i < |entries| ==>
               KeyOf(entries[i]) in r && r[KeyOf(entries[i])] == FieldOf(entries[i]))
            && (forall k :: k in m ==> k in r)
            && (forall k :: k in m && (forall i :: 0 <= i < |entries| ==> KeyOf(entries[i]) != k) ==> r[k] == m[k])
            && (forall k :: k in r ==> k in m || exists i :: 0 <= i < |entries| && KeyOf(entries[i]) == k)
    decreases |entries|
  {
    hide KeyOf;
    hide FieldOf;
    if entries != [] {
      var rest := entries[1..];
      assert forall i :: 0 <= i < |rest| ==> rest[i] == entries[i + 1];
      var k0, m' := KeyOf(entries[0]), m[KeyOf(entries[0]) := FieldOf(entries[0])];
      DistinctKeysAllKept(m', rest);
      assert forall i :: 0 <= i < |rest| ==> KeyOf(rest[i]) != k0;
      forall k | k in AddAll(m, entries)
        ensures k in m || exists i :: 0 <= i < |entries| && KeyOf(entries[i]) == k
      {
        if k !in m && k != k0 {
          var i :| 0 <= i < |rest| && KeyOf(rest[i]) == k;
          assert KeyOf(entries[i + 1]) == k;
        }
      }
      forall i | 0 <= i < |entries|
        ensures KeyOf(entries[i]) in AddAll(m, entries) && AddAll(m, entries)[KeyOf(entries[i])] == FieldOf(entries[i])
      {
        if i > 0 {
          assert entries[i] == rest[i - 1];
        }
      }
    }
  }

  lemma DecodeHeaded(major: nat, arg: Arg, s: seq<byte>)
    requires major < 8 && arg.Valid()
    ensures Decode(EncodeHead(major, arg) + s) == DecodeBody(Head(major, arg.info, arg.value), s)
  {
    hide ReadHead;
    hide EncodeHead;
    hide DecodeBody;
    HeadBack(major, arg, s);
  }

  /** Items without items inside. */
  lemma FlatBack(item: Item, t: seq<byte>)
    requires WellFormed(item) && !item.ArrayItem? && !item.MapItem? && !item.TagItem?
    ensures Decode(Encode(item) + t) == Ok(ValueOf(item), t)
  {
    hide Decode;
    hide EncodeHead;
    hide BigEndian;
    match item {
      case UintItem(arg) => DecodeHeaded(0, arg, t);
      case NintItem(arg) => DecodeHeaded(1, arg, t);
      case BytesItem(arg, data) =>
        DecodeHeaded(2, arg, data + t);
        assert Encode(item) + t == EncodeHead(2, arg) + (data + t);
        assert (data + t)[..|data|] == data && (data + t)[|data|..] == t;
      case TextItem(arg, text) =>
        DecodeHeaded(3, arg, text + t);
        assert Encode(item) + t == EncodeHead(3, arg) + (text + t);
        assert (text + t)[..|text|] == text && (text + t)[|text|..] == t;
      case SimpleItem(arg) => DecodeHeaded(7, arg, t);
    }
  }

  /** Every definite-length encoding decodes to the tree it was written from, with whatever follows
      left to read. */
  lemma {:induction false} RoundTrip(item: Item, t: seq<byte>)
    requires WellFormed(item)
    ensures Decode(Encode(item) + t) == Ok(ValueOf(item), t)
    decreases item, 0
  {
    hide Decode;
    hide EncodeHead;
    hide BigEndian;
    hide DecodeItems;
    hide DecodeEntries;
    hide EncodeAll;
    hide EncodeEntries;
    hide AddAll;
    match item {
      case ArrayItem(arg, items) =>
        DecodeHeaded(4, arg, EncodeAll(items) + t);
        assert Encode(item) + t == EncodeHead(4, arg) + (EncodeAll(items) + t);
        ItemsBack(items, t);
      case MapItem(arg, entries) =>
        DecodeHeaded(5, arg, EncodeEntries(entries) + t);
        assert Encode(item) + t == EncodeHead(5, arg) + (EncodeEntries(entries) + t);
        EntriesBack(entries, 0, map[], t);
      AllRead(t, AddAll(map[], entries));
      case TagItem(arg, inner) =>
        DecodeHeaded(6, arg, Encode(inner) + t);
        assert Encode(item) + t == EncodeHead(6, arg) + (Encode(inner) + t);
        RoundTrip(inner, t);
      case _ => FlatBack(item, t);
    }
  }

  lemma {:induction false} ItemsBack(items: seq<Item>, t: seq<byte>)
    requires AllWellFormed(items)
    ensures DecodeItems(EncodeAll(items) + t, |items|) == Ok(ValuesOf(items), t)
    decreases items, 1
  {
    hide Decode;
    hide Encode;
    hide ValueOf;
    hide WellFormed;
    if items == [] {
      assert [] + t == t;
    } else {
      RoundTrip(items[0], EncodeAll(items[1..]) + t);
      assert EncodeAll(items) + t == Encode(items[0]) + (EncodeAll(items[1..]) + t);
      ItemsBack(items[1..], t);
    }
  }

  /** Encoded entries are read one by one, and then what follows, as n more. */
  lemma {:induction false} EntriesBack(entries: seq<Entry>, n: nat, m: map<Value, Value>, t: seq<byte>)
    requires EntriesWellFormed(entries)
    ensures DecodeEntries(EncodeEntries(entries) + t, |entries| + n, m) == DecodeEntries(t, n, AddAll(m, entries))
    decreases entries, 1
  {
    hide Decode;
    hide Encode;
    hide EncodeEntry;
    hide KeyOf;
    hide FieldOf;
    hide EntryWellFormed;
    if entries == [] {
      assert [] + t == t;
    } else {
      var rest := EncodeEntries(entries[1..]) + t;
      EntryBack(entries[0], rest);
      assert EncodeEntries(entries) + t == EncodeEntry(entries[0]) + rest;
      EntriesBack(entries[1..], n, m[KeyOf(entries[0]) := FieldOf(entries[0])], t);
    }
  }

  lemma AllRead(t: seq<byte>, m: map<Value, Value>)
    ensures DecodeEntries(t, 0, m) == Ok(m, t)
  {
  }

  lemma {:induction false} EntryBack(e: Entry, t: seq<byte>)
    requires EntryWellFormed(e)
    ensures var r := Decode(EncodeEntry(e) + t);
            && r.Ok? && r.value == KeyOf(e) && Hashable(r.value) && Decode(r.rest) == Ok(FieldOf(e), t)
    decreases e, 1
  {
    hide Decode;
    hide Encode;
    hide ValueOf;
    hide Hashable;
    hide WellFormed;
    RoundTrip(e.key, Encode(e.value) + t);
    RoundTrip(e.value, t);
    KeyKinds(e.key);
    assert EncodeEntry(e) + t == Encode(e.key) + (Encode(e.value) + t);
  }

  /** A map whose first key of another kind, a byte string, an array or a map, stands behind well-formed
      entries: the decoder panics as soon as it has read the value of that key, whatever comes after, and
      fails as that value does if it cannot be read. */
  lemma IllKeyPanics(arg: Arg, before: seq<Entry>, key: Item, s: seq<byte>)
    requires arg.Valid() && arg.value > |before| && EntriesWellFormed(before)
    requires WellFormed(key) && !KeyKind(key)
    ensures Decode(EncodeHead(5, arg) + (EncodeEntries(before) + (Encode(key) + s))) ==
            match Decode(s)
            case Ok(_, _) => Failed(Panicked)
            case Failed(e) => Failed(e)
  {
    hide Decode;
    hide Encode;
    hide EncodeHead;
    hide EncodeEntries;
    hide WellFormed;
    hide Hashable;
    hide ValueOf;
    hide AddAll;
    var t := Encode(key) + s;
    DecodeHeaded(5, arg, EncodeEntries(before) + t);
    EntriesBack(before, arg.value - |before|, map[], t);
    RoundTrip(key, s);
    KeyKinds(key);
  }

  /** An encoding cut short does not decode: only the whole of it does. */
  lemma OnlyTheWholeDecodes(item: Item, n: nat)
    requires WellFormed(item) && n <= |Encode(item)|
    ensures Decode(Encode(item)[..n]).Ok? <==> n == |Encode(item)|
  {
    hide Decode;
    hide Encode;
    hide WellFormed;
    var e := Encode(item);
    var start := e[..n];
    RoundTrip(item, []);
    assert e + [] == e;
    if n == |e| {
      assert start == e;
    }
    if Decode(start).Ok? {
      var c := DecodeReads(start);
      assert |c| <= n && e == c + e[|c|..];
      assert Decode(e).rest == e[|c|..];
      assert |e[|c|..]| == 0;
    }
  }

  /** A negative integer comes out as itself exactly when its argument is below 2^63; from there on
      the conversion to int64 wraps and the result is not even negative. */
  lemma NegativesAreExactBelowTwo63(arg: Arg, t: seq<byte>)
    requires arg.Valid() && arg.value < TWO_64
    ensures var r := Decode(Encode(NintItem(arg)) + t);
            && r.Ok? && r.value.Nint? && r.rest == t
            && (r.value.i == -1 - arg.value <==> arg.value < TWO_63)
            && (arg.value >= TWO_63 ==> r.value.i == 0x1_0000_0000_0000_0000 - 1 - arg.value)
  {
    RoundTrip(NintItem(arg), t);
  }
}
