/** Base64 with the URL-safe alphabet and no padding (section 5 of RFC 4648), decoded strictly. */
module Base64Url {
  import opened Wrappers
  import opened Bytes

  // The letter of six bits, and the six bits of a letter.
  function Letter(v: nat): (c: char)
    requires v < 64
  {
    if v < 26 then 'A' + v as char
    else if v < 52 then 'a' + (v - 26) as char
    else if v < 62 then '0' + (v - 52) as char
    else if v == 62 then '-' else '_'
  }

  function Bits(c: char): (v: Option<nat>)
    ensures v.Some? ==> v.value < 64 && Letter(v.value) == c
  {
    if 'A' <= c <= 'Z' then Some((c - 'A') as nat)
    else if 'a' <= c <= 'z' then Some((c - 'a') as nat + 26)
    else if '0' <= c <= '9' then Some((c - '0') as nat + 52)
    else if c == '-' then Some(62)
    else if c == '_' then Some(63)
    else None
  }

  lemma BitsOfLetter(v: nat)
    requires v < 64
    ensures Bits(Letter(v)) == Some(v)
  {
  }

  // The bits of a group's three bytes.
  function Bits0(b0: Byte): (v: nat)
    ensures v < 64
  {
    b0 as int / 4
  }

  function Bits1(b0: Byte, b1: Byte): (v: nat)
    ensures v < 64
  {
    b0 as int % 4 * 16 + b1 as int / 16
  }

  function Bits2(b1: Byte, b2: Byte): (v: nat)
    ensures v < 64
  {
    b1 as int % 16 * 4 + b2 as int / 64
  }

  function Bits3(b2: Byte): (v: nat)
    ensures v < 64
  {
    b2 as int % 64
  }

  // A last group of one or two bytes is cut as if followed by zeros, and short of its all-zero letters.
  function Encode(b: Text): string {
    if b == [] then ""
    else if |b| == 1 then [Letter(Bits0(b[0])), Letter(Bits1(b[0], 0))]
    else if |b| == 2 then [Letter(Bits0(b[0])), Letter(Bits1(b[0], b[1])), Letter(Bits2(b[1], 0))]
    else [Letter(Bits0(b[0])), Letter(Bits1(b[0], b[1])), Letter(Bits2(b[1], b[2])), Letter(Bits3(b[2]))] + Encode(b[3..])
  }

  // The three bytes of a group's bits.
  function Byte0(v0: nat, v1: nat): Byte
    requires v0 < 64 && v1 < 64
  {
    (v0 * 4 + v1 / 16) as Byte
  }

  function Byte1(v1: nat, v2: nat): Byte
    requires v1 < 64 && v2 < 64
  {
    (v1 % 16 * 16 + v2 / 4) as Byte
  }

  function Byte2(v2: nat, v3: nat): Byte
    requires v2 < 64 && v3 < 64
  {
    (v2 % 4 * 64 + v3) as Byte
  }

  // No group is left at one letter, and the bits past the last byte are zero.
  function Decode(c: string): Option<Text> {
    if c == "" then Some([])
    else if |c| == 1 || Bits(c[0]).None? || Bits(c[1]).None? then None
    else
      var v0, v1 := Bits(c[0]).value, Bits(c[1]).value;
      if |c| == 2 then (if v1 % 16 != 0 then None else Some([Byte0(v0, v1)]))
      else if Bits(c[2]).None? then None
      else
        var v2 := Bits(c[2]).value;
        if |c| == 3 then (if v2 % 4 != 0 then None else Some([Byte0(v0, v1), Byte1(v1, v2)]))
        else if Bits(c[3]).None? then None
        else
          match Decode(c[4..])
          case None => None
          case Some(rest) => Some([Byte0(v0, v1), Byte1(v1, v2), Byte2(v2, Bits(c[3]).value)] + rest)
  }

  // The bits cut from three bytes, made into bytes again.
  lemma BytesBack(x: Byte, y: Byte, z: Byte)
    ensures Byte0(Bits0(x), Bits1(x, y)) == x && Byte1(Bits1(x, y), Bits2(y, z)) == y && Byte2(Bits2(y, z), Bits3(z)) == z
    ensures Bits1(x, 0) % 16 == 0 && Bits2(y, 0) % 4 == 0
  {
  }

  lemma DecodesLetters(v0: nat, v1: nat, v2: nat, v3: nat, tail: string)
    requires v0 < 64 && v1 < 64 && v2 < 64 && v3 < 64
    ensures Decode([Letter(v0), Letter(v1), Letter(v2), Letter(v3)] + tail) ==
            match Decode(tail)
            case None => None
            case Some(rest) => Some([Byte0(v0, v1), Byte1(v1, v2), Byte2(v2, v3)] + rest)
  {
    BitsOfLetter(v0);
    BitsOfLetter(v1);
    BitsOfLetter(v2);
    BitsOfLetter(v3);
    hide Letter, Bits, Byte0, Byte1, Byte2;
    assert ([Letter(v0), Letter(v1), Letter(v2), Letter(v3)] + tail)[4..] == tail;
  }

  lemma {:induction false} DecodesWhatWasEncoded(b: Text)
    ensures Decode(Encode(b)) == Some(b)
  {
    hide Decode, Letter, Byte0, Byte1, Byte2, Bits0, Bits1, Bits2, Bits3;
    if |b| >= 3 {
      DecodesWhatWasEncoded(b[3..]);
      DecodesGroupOf(b);
    } else if b != [] {
      DecodesLast(b);
    } else {
      DecodesNothing();
    }
  }

  lemma DecodesNothing()
    ensures Decode(Encode([])) == Some([])
  {
  }

  lemma EncodesFirst(b: Text)
    requires |b| >= 3
    ensures Encode(b) == [Letter(Bits0(b[0])), Letter(Bits1(b[0], b[1])), Letter(Bits2(b[1], b[2])), Letter(Bits3(b[2]))]
                         + Encode(b[3..])
  {
  }

  lemma DecodesGroupOf(b: Text)
    requires |b| >= 3 && Decode(Encode(b[3..])) == Some(b[3..])
    ensures Decode(Encode(b)) == Some(b)
  {
    hide Decode, Encode, Letter, Byte0, Byte1, Byte2, Bits0, Bits1, Bits2, Bits3;
    EncodesFirst(b);
    BytesBack(b[0], b[1], b[2]);
    DecodesLetters(Bits0(b[0]), Bits1(b[0], b[1]), Bits2(b[1], b[2]), Bits3(b[2]), Encode(b[3..]));
    assert b == [b[0], b[1], b[2]] + b[3..];
  }

  lemma DecodesTwo(v0: nat, v1: nat)
    requires v0 < 64 && v1 < 64
    ensures Decode([Letter(v0), Letter(v1)]) == if v1 % 16 != 0 then None else Some([Byte0(v0, v1)])
  {
    BitsOfLetter(v0);
    BitsOfLetter(v1);
    hide Letter, Bits, Byte0;
  }

  lemma DecodesThree(v0: nat, v1: nat, v2: nat)
    requires v0 < 64 && v1 < 64 && v2 < 64
    ensures Decode([Letter(v0), Letter(v1), Letter(v2)]) == if v2 % 4 != 0 then None else Some([Byte0(v0, v1), Byte1(v1, v2)])
  {
    BitsOfLetter(v0);
    BitsOfLetter(v1);
    BitsOfLetter(v2);
    hide Letter, Bits, Byte0, Byte1;
  }

  lemma DecodesLast(b: Text)
    requires 1 <= |b| <= 2
    ensures Decode(Encode(b)) == Some(b)
  {
    hide Decode, Letter, Byte0, Byte1, Bits0, Bits1, Bits2;
    if |b| == 1 {
      BytesBack(b[0], 0, 0);
      DecodesTwo(Bits0(b[0]), Bits1(b[0], 0));
      assert b == [b[0]];
    } else {
      BytesBack(b[0], b[1], 0);
      DecodesThree(Bits0(b[0]), Bits1(b[0], b[1]), Bits2(b[1], 0));
      assert b == [b[0], b[1]];
    }
  }

  // The bytes made of a group's bits, cut into bits again.
  lemma GroupBits(v0: nat, v1: nat, v2: nat, v3: nat)
    requires v0 < 64 && v1 < 64 && v2 < 64 && v3 < 64
    ensures var b0, b1, b2 := Byte0(v0, v1), Byte1(v1, v2), Byte2(v2, v3);
            && Bits0(b0) == v0 && Bits1(b0, b1) == v1 && Bits2(b1, b2) == v2 && Bits3(b2) == v3
            && (v1 % 16 == 0 ==> Bits1(b0, 0) == v1) && (v2 % 4 == 0 ==> Bits2(b1, 0) == v2)
  {
  }

  lemma {:induction false} EncodesWhatWasDecoded(c: string)
    requires Decode(c).Some?
    ensures Encode(Decode(c).value) == c
  {
    if |c| >= 4 {
      DecodesGroup(c);
      EncodesWhatWasDecoded(c[4..]);
      EncodesGroup(c);
    } else if c != "" {
      EncodesLast(c);
    }
  }

  lemma EncodesTwo(v0: nat, v1: nat)
    requires v0 < 64 && v1 < 64 && v1 % 16 == 0
    ensures Encode([Byte0(v0, v1)]) == [Letter(v0), Letter(v1)]
  {
    GroupBits(v0, v1, 0, 0);
    hide Byte0, Bits0, Bits1, Letter;
  }

  lemma EncodesThree(v0: nat, v1: nat, v2: nat)
    requires v0 < 64 && v1 < 64 && v2 < 64 && v2 % 4 == 0
    ensures Encode([Byte0(v0, v1), Byte1(v1, v2)]) == [Letter(v0), Letter(v1), Letter(v2)]
  {
    GroupBits(v0, v1, v2, 0);
    hide Byte0, Byte1, Bits0, Bits1, Bits2, Letter;
  }

  lemma LettersOf(c: string)
    requires 1 <= |c| <= 3 && Decode(c).Some?
    ensures |c| > 1 && forall i :: 0 <= i < |c| ==> Bits(c[i]).Some?
  {
  }

  lemma EncodesLast(c: string)
    requires 1 <= |c| <= 3 && Decode(c).Some?
    ensures Encode(Decode(c).value) == c
  {
    hide Decode, Encode, Letter, Bits, Byte0, Byte1;
    LettersOf(c);
    var v0, v1 := Bits(c[0]).value, Bits(c[1]).value;
    if |c| == 2 {
      assert c == [Letter(v0), Letter(v1)];
      DecodesTwo(v0, v1);
      EncodesTwo(v0, v1);
    } else {
      var v2 := Bits(c[2]).value;
      assert c == [Letter(v0), Letter(v1), Letter(v2)];
      DecodesThree(v0, v1, v2);
      EncodesThree(v0, v1, v2);
    }
  }

  lemma DecodesGroup(c: string)
    requires |c| >= 4 && Decode(c).Some?
    ensures Bits(c[0]).Some? && Bits(c[1]).Some? && Bits(c[2]).Some? && Bits(c[3]).Some? && Decode(c[4..]).Some?
    ensures var v0, v1, v2, v3 := Bits(c[0]).value, Bits(c[1]).value, Bits(c[2]).value, Bits(c[3]).value;
            Decode(c).value == [Byte0(v0, v1), Byte1(v1, v2), Byte2(v2, v3)] + Decode(c[4..]).value
  {
  }

  lemma EncodesBits(v0: nat, v1: nat, v2: nat, v3: nat, rest: Text)
    requires v0 < 64 && v1 < 64 && v2 < 64 && v3 < 64
    ensures Encode([Byte0(v0, v1), Byte1(v1, v2), Byte2(v2, v3)] + rest) ==
            [Letter(v0), Letter(v1), Letter(v2), Letter(v3)] + Encode(rest)
  {
    hide Byte0, Byte1, Byte2, Bits0, Bits1, Bits2, Bits3, Letter, Encode;
    GroupBits(v0, v1, v2, v3);
    var b := [Byte0(v0, v1), Byte1(v1, v2), Byte2(v2, v3)] + rest;
    EncodesFirst(b);
    assert b[3..] == rest;
  }

  lemma EncodesGroup(c: string)
    requires |c| >= 4 && Decode(c).Some? && Decode(c[4..]).Some? && Encode(Decode(c[4..]).value) == c[4..]
    ensures Encode(Decode(c).value) == c
  {
    hide Decode, Encode, Letter, Bits, Byte0, Byte1, Byte2;
    DecodesGroup(c);
    EncodesBits(Bits(c[0]).value, Bits(c[1]).value, Bits(c[2]).value, Bits(c[3]).value, Decode(c[4..]).value);
    assert c == [c[0], c[1], c[2], c[3]] + c[4..];
  }

  /** A text decodes to exactly the bytes it is the encoding of. */
  lemma DecodeInvertsEncode(c: string, b: Text)
    ensures Decode(c) == Some(b) <==> c == Encode(b)
  {
    DecodesWhatWasEncoded(b);
    if Decode(c) == Some(b) {
      EncodesWhatWasDecoded(c);
    }
  }

  // ---- The encoding, by its alphabet and its bits ----------------------------------------------

  /** The letters of six bits, from zero on. */
  lemma Alphabet()
    ensures [Letter(0), Letter(1), Letter(2), Letter(3), Letter(4), Letter(5), Letter(6), Letter(7),
             Letter(8), Letter(9), Letter(10), Letter(11), Letter(12), Letter(13), Letter(14), Letter(15),
             Letter(16), Letter(17), Letter(18), Letter(19), Letter(20), Letter(21), Letter(22), Letter(23),
             Letter(24), Letter(25), Letter(26), Letter(27), Letter(28), Letter(29), Letter(30), Letter(31),
             Letter(32), Letter(33), Letter(34), Letter(35), Letter(36), Letter(37), Letter(38), Letter(39),
             Letter(40), Letter(41), Letter(42), Letter(43), Letter(44), Letter(45), Letter(46), Letter(47),
             Letter(48), Letter(49), Letter(50), Letter(51), Letter(52), Letter(53), Letter(54), Letter(55),
             Letter(56), Letter(57), Letter(58), Letter(59), Letter(60), Letter(61), Letter(62), Letter(63)] == "ABCDEFGHIJKLMNOPQRSTUVWXYZabcdefghijklmnopqrstuvwxyz0123456789-_"
  {
  }

  // The `k`-th six of 24 bits.
  function Six(b0: Byte, b1: Byte, b2: Byte, k: nat): (v: nat)
    requires k < 4
    ensures v < 64
  {
    var n := b0 as int * 65536 + b1 as int * 256 + b2 as int;
    (match k case 0 => n / 262144 case 1 => n / 4096 case 2 => n / 64 case _ => n) % 64
  }

  lemma Parted(n: int, d: int, q: int, r: int)
    requires (d == 64 || d == 4096 || d == 262144) && n == d * q + r && 0 <= r < d
    ensures n / d == q && n % d == r
  {
    if d == 64 {
      assert n == 64 * q + r;
    } else if d == 4096 {
      assert n == 4096 * q + r;
    } else {
      assert n == 262144 * q + r;
    }
  }

  lemma SixBits(b0: Byte, b1: Byte, b2: Byte)
    ensures Six(b0, b1, b2, 0) == Bits0(b0) && Six(b0, b1, b2, 1) == Bits1(b0, b1)
    ensures Six(b0, b1, b2, 2) == Bits2(b1, b2) && Six(b0, b1, b2, 3) == Bits3(b2)
  {
    var x, y, z := b0 as int, b1 as int, b2 as int;
    var n := x * 65536 + y * 256 + z;
    Parted(n, 262144, x / 4, x % 4 * 65536 + y * 256 + z);
    Parted(n, 4096, x * 16 + y / 16, y % 16 * 256 + z);
    Parted(n, 64, x * 1024 + y * 4 + z / 64, z % 64);
    Parted(x * 16 + y / 16, 64, x / 4, x % 4 * 16 + y / 16);
    Parted(x * 1024 + y * 4 + z / 64, 64, x * 16 + y / 16, y % 16 * 4 + z / 64);
    Parted(n, 64, x * 1024 + y * 4 + z / 64, z % 64);
  }

  /** Three bytes are four letters, of their 24 bits six at a time; one or two at the end stand as if followed by zeros. */
  lemma EncodedByBits(b: Text)
    requires b != []
    ensures |b| == 1 ==> Encode(b) == [Letter(Six(b[0], 0, 0, 0)), Letter(Six(b[0], 0, 0, 1))]
    ensures |b| == 2 ==>
              Encode(b) == [Letter(Six(b[0], b[1], 0, 0)), Letter(Six(b[0], b[1], 0, 1)), Letter(Six(b[0], b[1], 0, 2))]
    ensures |b| > 2 ==>
              Encode(b) == [Letter(Six(b[0], b[1], b[2], 0)), Letter(Six(b[0], b[1], b[2], 1)), Letter(Six(b[0], b[1], b[2], 2)),
                            Letter(Six(b[0], b[1], b[2], 3))] + Encode(b[3..])
  {
    SixBits(b[0], if |b| > 1 then b[1] else 0, if |b| > 2 then b[2] else 0);
    hide Letter, Six, Bits0, Bits1, Bits2, Bits3;
  }
}

/** Cursor pagination: a list in key order, cut into pages, each cursor naming the last key served. */
module Pagination {
  import opened Wrappers
  import opened Bytes
  import opened Utf8
  import opened Json
  import opened Base64Url

  type Key = t: Text | ValidUtf8(t) witness []

  datatype Item<T> = Item(key: Key, value: T)

  datatype InvalidCursor = InvalidCursor

  datatype Page<T> = Page(items: seq<Item<T>>, nextCursor: Option<string>)

  // The order of strings: that of their bytes.
  predicate Le(a: Text, b: Text) {
    a == [] || (b != [] && (a[0] < b[0] || (a[0] == b[0] && Le(a[1..], b[1..]))))
  }

  lemma {:induction false} LeTotal(a: Text, b: Text)
    ensures Le(a, b) || Le(b, a)
    ensures Le(a, b) && Le(b, a) ==> a == b
    ensures Le(a, a)
  {
    if a != [] {
      LeTotal(a[1..], if b == [] then [] else b[1..]);
      if b != [] && a[0] == b[0] && a[1..] == b[1..] {
        assert a == [a[0]] + a[1..] && b == [b[0]] + b[1..];
      }
    }
  }

  lemma {:induction false} LeTransitive(a: Text, b: Text, c: Text)
    requires Le(a, b) && Le(b, c)
    ensures Le(a, c)
  {
    if a != [] && a[0] == b[0] && b[0] == c[0] {
      LeTransitive(a[1..], b[1..], c[1..]);
    }
  }

  function EncodeCursor(key: Key): string { Encode(key) }

  function DecodeCursor(cursor: string): Result<Key, InvalidCursor> {
    match Decode(cursor)
    case None => Err(InvalidCursor)
    case Some(bytes) => if ValidUtf8(bytes) then Ok(bytes) else Err(InvalidCursor)
  }

  /** A cursor is taken exactly when it names a key, and for that key alone. */
  lemma CursorNamesItsKey(cursor: string, key: Key)
    ensures DecodeCursor(cursor) == Ok(key) <==> cursor == EncodeCursor(key)
  {
    DecodeInvertsEncode(cursor, key);
  }

  // The `cursor` of a list request.
  function CursorParam(params: Option<Json>): Result<Option<string>, InvalidCursor> {
    match params
    case Some(Obj(fields)) =>
      if "cursor" !in fields || fields["cursor"] == Null then Ok(None)
      else if fields["cursor"].Str? then Ok(Some(fields["cursor"].s))
      else Err(InvalidCursor)
    case _ => Ok(None)
  }

  // ---- The order of a list ---------------------------------------------------------------------

  // A stable sort by key: each item goes behind those of no greater key.
  function Sort<T>(items: seq<Item<T>>): seq<Item<T>> {
    if items == [] then [] else Insert(Sort(items[..|items|-1]), items[|items|-1])
  }

  function Insert<T>(sorted: seq<Item<T>>, x: Item<T>): seq<Item<T>> {
    if sorted == [] || Le(sorted[|sorted|-1].key, x.key) then sorted + [x]
    else Insert(sorted[..|sorted|-1], x) + [sorted[|sorted|-1]]
  }

  predicate Sorted<T>(s: seq<Item<T>>) {
    forall i, j :: 0 <= i < j < |s| ==> Le(s[i].key, s[j].key)
  }

  function OfKey<T>(s: seq<Item<T>>, key: Key): seq<Item<T>> {
    if s == [] then [] else OfKey(s[..|s|-1], key) + (if s[|s|-1].key == key then [s[|s|-1]] else [])
  }

  lemma {:induction false} InsertHolds<T>(sorted: seq<Item<T>>, x: Item<T>)
    ensures multiset(Insert(sorted, x)) == multiset(sorted) + multiset{x}
  {
    var n := |sorted|;
    if sorted != [] && !Le(sorted[n-1].key, x.key) {
      InsertHolds(sorted[..n-1], x);
      assert sorted == sorted[..n-1] + [sorted[n-1]];
    }
  }

  lemma InsertedIs<T>(sorted: seq<Item<T>>, x: Item<T>, i: nat)
    requires i < |Insert(sorted, x)|
    ensures Insert(sorted, x)[i] == x || exists j :: 0 <= j < |sorted| && sorted[j] == Insert(sorted, x)[i]
  {
    InsertHolds(sorted, x);
    var y := Insert(sorted, x)[i];
    assert y in multiset(Insert(sorted, x));
    if y != x {
      assert y in multiset(sorted);
    }
  }

  lemma {:induction false} InsertSorts<T>(sorted: seq<Item<T>>, x: Item<T>)
    requires Sorted(sorted)
    ensures Sorted(Insert(sorted, x))
  {
    var n := |sorted|;
    if sorted != [] && !Le(sorted[n-1].key, x.key) {
      InsertSorts(sorted[..n-1], x);
      LeTotal(sorted[n-1].key, x.key);
      var front := Insert(sorted[..n-1], x);
      forall i | 0 <= i < |front|
        ensures Le(front[i].key, sorted[n-1].key)
      {
        InsertedIs(sorted[..n-1], x, i);
      }
      hide Insert;
    } else if sorted != [] {
      forall i | 0 <= i < n
        ensures Le(sorted[i].key, x.key)
      {
        if i < n - 1 { LeTransitive(sorted[i].key, sorted[n-1].key, x.key); }
      }
    }
  }

  lemma {:induction false} InsertKeepsOrder<T>(sorted: seq<Item<T>>, x: Item<T>, key: Key)
    requires Sorted(sorted)
    ensures OfKey(Insert(sorted, x), key) == OfKey(sorted, key) + (if x.key == key then [x] else [])
  {
    var n := |sorted|;
    if sorted == [] || Le(sorted[n-1].key, x.key) {
      assert (sorted + [x])[..n] == sorted;
    } else {
      var last := sorted[n-1];
      InsertKeepsOrder(sorted[..n-1], x, key);
      var front := Insert(sorted[..n-1], x);
      assert (front + [last])[..|front|] == front;
      LeTotal(last.key, x.key);
    }
  }

  /** The list is sorted by key, keeps its items, and keeps those of one key in the order they came. */
  lemma {:induction false} SortIsStable<T>(items: seq<Item<T>>, key: Key)
    ensures Sorted(Sort(items)) && multiset(Sort(items)) == multiset(items)
    ensures OfKey(Sort(items), key) == OfKey(items, key)
  {
    hide Insert, Sorted;
    if items != [] {
      var n := |items|;
      var front, x := items[..n-1], items[n-1];
      SortIsStable(front, key);
      InsertSorts(Sort(front), x);
      InsertHolds(Sort(front), x);
      InsertKeepsOrder(Sort(front), x, key);
      assert items == front + [x];
    } else {
      EmptyIsSorted<T>();
    }
  }

  lemma EmptyIsSorted<T>()
    ensures Sorted<T>([])
  {
  }

  lemma {:induction false} SortFacts<T>(items: seq<Item<T>>)
    ensures Sorted(Sort(items)) && |Sort(items)| == |items|
    ensures forall x :: x in Sort(items) <==> x in items
  {
    SortIsStable(items, []);
    assert multiset(Sort(items)) == multiset(items);
    assert |multiset(Sort(items))| == |multiset(items)|;
    forall x
      ensures x in Sort(items) <==> x in items
    {
      assert x in multiset(Sort(items)) <==> x in multiset(items);
    }
  }

  // ---- A page ----------------------------------------------------------------------------------

  // How many of a sorted list's items come no later than the key.
  function Served<T>(s: seq<Item<T>>, after: Option<Key>): (n: nat)
    ensures n <= |s|
    ensures after.None? ==> n == 0
    ensures after.Some? ==> forall i :: 0 <= i < n ==> Le(s[i].key, after.value)
    ensures after.Some? && n < |s| ==> !Le(s[n].key, after.value)
    decreases |s|
  {
    if after.None? || s == [] || !Le(s[0].key, after.value) then 0 else 1 + Served(s[1..], after)
  }

  function Cut<T>(rest: seq<Item<T>>, size: Option<nat>): Page<T>
    requires size.Some? ==> size.value > 0
  {
    if size.Some? && |rest| > size.value
    then Page(rest[..size.value], Some(EncodeCursor(rest[size.value-1].key)))
    else Page(rest, None)
  }

  function PageAfter<T>(items: seq<Item<T>>, cursor: Option<string>, size: Option<nat>): Result<Page<T>, InvalidCursor>
    requires size.Some? ==> size.value > 0
  {
    var s := Sort(items);
    match cursor
    case None => Ok(Cut(s, size))
    case Some(c) =>
      match DecodeCursor(c)
      case Err(e) => Err(e)
      case Ok(after) => Ok(Cut(s[Served(s, Some(after))..], size))
  }

  method Paginate<T>(items: seq<Item<T>>, cursor: Option<string>, size: Option<nat>)
    returns (page: Result<Page<T>, InvalidCursor>)
    requires size.Some? ==> size.value > 0
    ensures page == PageAfter(items, cursor, size)
  {
    var rest := Sort(items);
    if cursor.Some? {
      var after := DecodeCursor(cursor.value);
      if after.Err? {
        return Err(after.error);
      }
      rest := rest[Served(rest, Some(after.value))..];
    } else {
      assert rest[0..] == rest;
    }
    var nextCursor: Option<string> := None;
    if size.Some? && |rest| > size.value {
      rest := rest[..size.value];
      nextCursor := Some(EncodeCursor(rest[|rest|-1].key));
    }
    page := Ok(Page(rest, nextCursor));
  }

  // A list request: the cursor its `params` carry, and the page after it.
  function ListCall<T>(items: seq<Item<T>>, params: Option<Json>, size: Option<nat>): Result<Page<T>, InvalidCursor>
    requires size.Some? ==> size.value > 0
  {
    match CursorParam(params)
    case Err(e) => Err(e)
    case Ok(cursor) => PageAfter(items, cursor, size)
  }

  /** A list request is refused if and only if it carries a cursor, not null, that names no key. */
  lemma ListIsRefusedIff<T>(items: seq<Item<T>>, params: Option<Json>, size: Option<nat>)
    requires size.Some? ==> size.value > 0
    ensures ListCall(items, params, size).Err? <==>
              && params.Some? && params.value.Obj? && "cursor" in params.value.fields
              && params.value.fields["cursor"] != Null
              && forall key: Key :: params.value.fields["cursor"] != Str(EncodeCursor(key))
  {
    hide Sort, Served, Cut, DecodeCursor, EncodeCursor;
    if params.Some? && params.value.Obj? && "cursor" in params.value.fields && params.value.fields["cursor"].Str? {
      var cursor := params.value.fields["cursor"].s;
      forall key: Key
        ensures DecodeCursor(cursor) == Ok(key) <==> cursor == EncodeCursor(key)
      {
        CursorNamesItsKey(cursor, key);
      }
    }
  }

  predicate Before(after: Option<Key>, key: Text) { after.Some? ==> !Le(key, after.value) }

  lemma ServedSplits<T>(s: seq<Item<T>>, after: Option<Key>)
    requires Sorted(s)
    ensures forall i :: Served(s, after) <= i < |s| ==> Before(after, s[i].key)
  {
    var n := Served(s, after);
    if after.Some? && n < |s| {
      forall i | n <= i < |s|
        ensures !Le(s[i].key, after.value)
      {
        LeTotal(s[n].key, s[n].key);
        if Le(s[i].key, after.value) {
          if i > n { LeTransitive(s[n].key, s[i].key, after.value); }
        }
      }
    }
  }

  /** Keys are ordered by their bytes: by the first in which they differ, and a shorter one before what goes on from it. */
  lemma {:induction false} LeIsByteOrder(a: Text, b: Text)
    ensures Le(a, b) <==> a <= b || exists i :: 0 <= i < |a| && i < |b| && a[..i] == b[..i] && a[i] < b[i]
  {
    if a != [] && b != [] && a[0] == b[0] {
      LeIsByteOrder(a[1..], b[1..]);
      assert a[1..] <= b[1..] <==> a <= b;
      if i :| 0 <= i < |a| && i < |b| && a[..i] == b[..i] && a[i] < b[i] {
        assert i > 0;
        assert a[1..][..i-1] == a[..i][1..] && b[1..][..i-1] == b[..i][1..];
        assert a[1..][i-1] < b[1..][i-1];
      }
      if i :| 0 <= i < |a[1..]| && i < |b[1..]| && a[1..][..i] == b[1..][..i] && a[1..][i] < b[1..][i] {
        assert a[..i+1] == [a[0]] + a[1..][..i] && b[..i+1] == [b[0]] + b[1..][..i];
        assert a[i+1] < b[i+1];
      }
    } else if a != [] && b != [] {
      assert a[..0] == b[..0];
    }
  }

  // The place in a sorted list of the first key after the cursor's.
  predicate IsStart<T>(s: seq<Item<T>>, after: Option<Key>, start: nat) {
    && start <= |s|
    && (after.None? ==> start == 0)
    && (after.Some? ==>
          && (forall i :: 0 <= i < start ==> Le(s[i].key, after.value))
          && forall i :: start <= i < |s| ==> !Le(s[i].key, after.value))
  }

  /**
   * A page is the sorted list from the first key after the cursor's, up to the page size; it has a cursor, that of its last
   * key, if and only if something is left.
   */
  lemma PageOutcome<T>(items: seq<Item<T>>, after: Option<Key>, size: Option<nat>, start: nat)
    requires (size.Some? ==> size.value > 0) && IsStart(Sort(items), after, start)
    ensures var s := Sort(items);
            ListCall(items, RequestAfter(after), size) ==
              if size.Some? && |s| - start > size.value
              then Ok(Page(s[start..start+size.value], Some(EncodeCursor(s[start+size.value-1].key))))
              else Ok(Page(s[start..], None))
  {
    hide Sort, EncodeCursor, ListCall, RequestAfter, Le, Served;
    var s := Sort(items);
    PageIsCut(items, after, size);
    StartIsServed(s, after, start);
    if size.Some? && |s| - start > size.value {
      assert s[start..][..size.value] == s[start..start+size.value];
    }
  }

  lemma StartIsServed<T>(s: seq<Item<T>>, after: Option<Key>, start: nat)
    requires IsStart(s, after, start)
    ensures Served(s, after) == start
  {
    hide Le;
    var n := Served(s, after);
    assert n < |s| ==> s[n] in s;
    assert start < |s| ==> s[start] in s;
  }

  // ---- A walk ----------------------------------------------------------------------------------

  // A client following cursors, the list read anew at each call: what it has been given, and whether it is done.
  datatype Walk<T> = Walk(listed: seq<Item<T>>, done: bool, after: Option<Key>)

  // The params of a call that follows a cursor, or of a first call.
  function RequestAfter(after: Option<Key>): Option<Json> {
    match after case None => None case Some(key) => Some(Obj(map["cursor" := Str(EncodeCursor(key))]))
  }

  function WalkOver<T>(lists: seq<seq<Item<T>>>, size: Option<nat>): Walk<T>
    requires size.Some? ==> size.value > 0
  {
    if lists == [] then Walk([], false, None)
    else
      var w := WalkOver(lists[..|lists|-1], size);
      if w.done then w
      else
        match ListCall(lists[|lists|-1], RequestAfter(w.after), size)
        case Err(_) => w
        case Ok(page) =>
          Walk(w.listed + page.items, page.nextCursor.None?,
               match page.nextCursor
               case None => None
               case Some(c) => match DecodeCursor(c) case Ok(key) => Some(key) case Err(_) => None)
  }

  // One call of a walk, without the detour through the cursor's text.
  function Step<T>(w: Walk<T>, items: seq<Item<T>>, size: Option<nat>): Walk<T>
    requires size.Some? ==> size.value > 0
  {
    if w.done then w
    else
      var s := Sort(items);
      var rest := s[Served(s, w.after)..];
      if size.Some? && |rest| > size.value
      then Walk(w.listed + rest[..size.value], false, Some(rest[size.value-1].key))
      else Walk(w.listed + rest, true, None)
  }

  lemma PageIsCut<T>(items: seq<Item<T>>, after: Option<Key>, size: Option<nat>)
    requires size.Some? ==> size.value > 0
    ensures var s := Sort(items);
            ListCall(items, RequestAfter(after), size) == Ok(Cut(s[Served(s, after)..], size))
  {
    hide Sort, Served, DecodeCursor, EncodeCursor, Cut;
    if after.Some? {
      CursorNamesItsKey(EncodeCursor(after.value), after.value);
    } else {
      assert Sort(items)[0..] == Sort(items);
    }
  }

  lemma CursorOfCut<T>(rest: seq<Item<T>>, size: Option<nat>)
    requires size.Some? ==> size.value > 0
    ensures Cut(rest, size).nextCursor.Some? ==>
              size.Some? && |rest| > size.value
              && DecodeCursor(Cut(rest, size).nextCursor.value) == Ok(rest[size.value-1].key)
  {
    hide DecodeCursor, EncodeCursor;
    if size.Some? && |rest| > size.value {
      CursorNamesItsKey(EncodeCursor(rest[size.value-1].key), rest[size.value-1].key);
    }
  }

  lemma WalkSteps<T>(lists: seq<seq<Item<T>>>, size: Option<nat>)
    requires (size.Some? ==> size.value > 0) && lists != []
    ensures WalkOver(lists, size) == Step(WalkOver(lists[..|lists|-1], size), lists[|lists|-1], size)
  {
    hide Sort, Served, ListCall, RequestAfter, DecodeCursor, EncodeCursor;
    var w := WalkOver(lists[..|lists|-1], size);
    var s := Sort(lists[|lists|-1]);
    PageIsCut(lists[|lists|-1], w.after, size);
    CursorOfCut(s[Served(s, w.after)..], size);
  }

  predicate DistinctKeys<T>(items: seq<Item<T>>) {
    forall i, j :: 0 <= i < j < |items| ==> items[i].key != items[j].key
  }

  predicate Listed<T>(s: seq<Item<T>>, key: Key) { exists i :: 0 <= i < |s| && s[i].key == key }

  // What has been listed is in order, up to the key the walk has come to.
  ghost predicate InOrder<T>(w: Walk<T>) {
    && Sorted(w.listed)
    && (!w.done ==> forall i :: 0 <= i < |w.listed| ==> w.after.Some? && Le(w.listed[i].key, w.after.value))
  }

  // A call lists items in order, all past where the walk was.
  lemma StepLists<T>(w: Walk<T>, items: seq<Item<T>>, size: Option<nat>)
    requires (size.Some? ==> size.value > 0) && !w.done
    ensures var more := Step(w, items, size).listed[|w.listed|..];
            && Step(w, items, size).listed == w.listed + more
            && Sorted(more) && (forall i :: 0 <= i < |more| ==> Before(w.after, more[i].key) && more[i] in items)
            && (!Step(w, items, size).done ==> more != [] && Step(w, items, size).after == Some(more[|more|-1].key))
  {
    hide Sort, Served, Le;
    var s := Sort(items);
    SortFacts(items);
    ServedSplits(s, w.after);
    var rest := s[Served(s, w.after)..];
    var more := Step(w, items, size).listed[|w.listed|..];
    assert more == if size.Some? && |rest| > size.value then rest[..size.value] else rest;
    forall i | 0 <= i < |more|
      ensures Before(w.after, more[i].key) && more[i] in items
    {
      assert more[i] == s[Served(s, w.after) + i];
      assert more[i] in s;
    }
  }

  lemma DoneStays<T>(w: Walk<T>, items: seq<Item<T>>, size: Option<nat>)
    requires (size.Some? ==> size.value > 0) && w.done
    ensures Step(w, items, size) == w
  {
  }

  lemma StepKeepsOrder<T>(w: Walk<T>, items: seq<Item<T>>, size: Option<nat>)
    requires (size.Some? ==> size.value > 0) && InOrder(w)
    ensures InOrder(Step(w, items, size))
  {
    hide Sort, Served, Le, Step;
    if w.done {
      DoneStays(w, items, size);
    } else {
      StepLists(w, items, size);
      var t := Step(w, items, size);
      var more := t.listed[|w.listed|..];
      forall i, j | 0 <= i < j < |t.listed|
        ensures Le(t.listed[i].key, t.listed[j].key)
      {
        if i < |w.listed| <= j {
          assert t.listed[j] == more[j-|w.listed|];
          Passed(w.listed[i].key, w.after.value, more[j-|w.listed|].key);
        }
      }
      if !t.done {
        forall i | 0 <= i < |t.listed|
          ensures Le(t.listed[i].key, t.after.value)
        {
          LeTotal(t.after.value, t.after.value);
          assert t.listed[|t.listed|-1] == more[|more|-1];
        }
      }
    }
  }

  lemma Passed(a: Text, after: Text, b: Text)
    requires Le(a, after) && !Le(b, after)
    ensures Le(a, b) && a != b
  {
    LeTotal(b, after);
    LeTransitive(a, after, b);
  }

  lemma {:induction false} WalkInOrder<T>(lists: seq<seq<Item<T>>>, size: Option<nat>)
    requires size.Some? ==> size.value > 0
    ensures InOrder(WalkOver(lists, size))
  {
    if lists != [] {
      WalkInOrder(lists[..|lists|-1], size);
      WalkSteps(lists, size);
      StepKeepsOrder(WalkOver(lists[..|lists|-1], size), lists[|lists|-1], size);
    }
  }

  // A key in every list is listed, or still ahead.
  ghost predicate Reached<T>(w: Walk<T>, key: Key) {
    Listed(w.listed, key) || (!w.done && Before(w.after, key))
  }

  // What a call lists is the next of the list's items, in its order.
  lemma StepTakes<T>(w: Walk<T>, items: seq<Item<T>>, size: Option<nat>)
    requires (size.Some? ==> size.value > 0) && !w.done
    ensures var t := Step(w, items, size);
            var s := Sort(items);
            var n, m := Served(s, w.after), |t.listed| - |w.listed|;
            && 0 <= m <= |s| - n && w.listed <= t.listed
            && (forall j :: |w.listed| <= j < |t.listed| ==> t.listed[j] == s[n + (j - |w.listed|)])
            && (if t.done then m == |s| - n else 0 < m && t.after == Some(s[n+m-1].key))
  {
    hide Sort, Served;
  }

  lemma StepReaches<T>(w: Walk<T>, items: seq<Item<T>>, size: Option<nat>, key: Key)
    requires (size.Some? ==> size.value > 0) && Reached(w, key) && Listed(items, key)
    ensures Reached(Step(w, items, size), key)
  {
    hide Sort, Served, Le, Step;
    var t := Step(w, items, size);
    if w.done {
      assert t == w by { DoneStays(w, items, size); }
    } else {
      StepTakes(w, items, size);
      if Listed(w.listed, key) {
        var i :| 0 <= i < |w.listed| && w.listed[i].key == key;
        assert t.listed[i].key == key;
      } else {
        var s := Sort(items);
        SortFacts(items);
        var j :| 0 <= j < |items| && items[j].key == key;
        assert items[j] in s;
        var i :| 0 <= i < |s| && s[i] == items[j];
        var n, m := Served(s, w.after), |t.listed| - |w.listed|;
        assert i >= n;
        if i < n + m {
          assert t.listed[|w.listed| + i - n].key == key;
        } else {
          assert Le(s[n+m-1].key, key);
          LeTotal(key, s[n+m-1].key);
          assert t.listed[|w.listed| + m - 1] == s[n+m-1];
          if key == s[n+m-1].key {
            assert t.listed[|w.listed| + m - 1].key == key;
          }
        }
      }
    }
  }

  lemma {:induction false} WalkReaches<T>(lists: seq<seq<Item<T>>>, size: Option<nat>, key: Key)
    requires size.Some? ==> size.value > 0
    requires forall i :: 0 <= i < |lists| ==> Listed(lists[i], key)
    ensures Reached(WalkOver(lists, size), key)
  {
    if lists != [] {
      var n := |lists|;
      hide WalkOver, Step, Reached, Listed;
      assert forall i :: 0 <= i < n - 1 ==> lists[..n-1][i] == lists[i];
      WalkReaches(lists[..n-1], size, key);
      WalkSteps(lists, size);
      StepReaches(WalkOver(lists[..n-1], size), lists[n-1], size, key);
    }
  }

  // With distinct keys in every list, what is listed is strictly in order.
  lemma {:induction false} WalkDistinct<T>(lists: seq<seq<Item<T>>>, size: Option<nat>)
    requires (size.Some? ==> size.value > 0) && forall i :: 0 <= i < |lists| ==> DistinctKeys(lists[i])
    ensures DistinctKeys(WalkOver(lists, size).listed)
  {
    if lists != [] {
      var n := |lists|;
      hide WalkOver, Step, DistinctKeys, InOrder;
      assert forall i :: 0 <= i < n - 1 ==> lists[..n-1][i] == lists[i];
      WalkDistinct(lists[..n-1], size);
      WalkInOrder(lists[..n-1], size);
      WalkSteps(lists, size);
      StepDistinct(WalkOver(lists[..n-1], size), lists[n-1], size);
    }
  }

  lemma StepDistinct<T>(w: Walk<T>, items: seq<Item<T>>, size: Option<nat>)
    requires (size.Some? ==> size.value > 0) && InOrder(w) && DistinctKeys(w.listed) && DistinctKeys(items)
    ensures DistinctKeys(Step(w, items, size).listed)
  {
    hide Sort, Served, Le, Step, Sorted;
    if w.done {
      DoneStays(w, items, size);
    } else {
      StepLists(w, items, size);
      StepTakes(w, items, size);
      SortDistinct(items);
      var t := Step(w, items, size);
      var s := Sort(items);
      var m, n := |w.listed|, Served(s, w.after);
      var more := t.listed[m..];
      forall i, j | 0 <= i < j < |t.listed|
        ensures t.listed[i].key != t.listed[j].key
      {
        if i < m <= j {
          assert t.listed[j] == more[j-m] && t.listed[i] == w.listed[i];
          Passed(w.listed[i].key, w.after.value, more[j-m].key);
        } else if m <= i {
          assert t.listed[i] == s[n+(i-m)] && t.listed[j] == s[n+(j-m)];
        }
      }
    }
  }

  lemma {:induction false} SortDistinct<T>(items: seq<Item<T>>)
    requires DistinctKeys(items)
    ensures DistinctKeys(Sort(items))
  {
    var s := Sort(items);
    forall i, j | 0 <= i < j < |s|
      ensures s[i].key != s[j].key
    {
      if s[i].key == s[j].key {
        var key := s[i].key;
        SortIsStable(items, key);
        TwoOfKey(s, key, i, j);
        OneOfKey(items, key);
      }
    }
  }

  lemma {:induction false} TwoOfKey<T>(s: seq<Item<T>>, key: Key, i: nat, j: nat)
    requires i < j < |s| && s[i].key == key && s[j].key == key
    ensures |OfKey(s, key)| >= 2
  {
    if j < |s| - 1 {
      TwoOfKey(s[..|s|-1], key, i, j);
    } else {
      SomeOfKey(s[..|s|-1], key, i);
    }
  }

  lemma {:induction false} SomeOfKey<T>(s: seq<Item<T>>, key: Key, i: nat)
    requires i < |s| && s[i].key == key
    ensures |OfKey(s, key)| >= 1
  {
    if i < |s| - 1 {
      SomeOfKey(s[..|s|-1], key, i);
    }
  }

  lemma {:induction false} OneOfKey<T>(s: seq<Item<T>>, key: Key)
    requires DistinctKeys(s)
    ensures |OfKey(s, key)| <= 1
  {
    if s != [] {
      var n := |s|;
      OneOfKey(s[..n-1], key);
      if s[n-1].key == key {
        NoneOfKey(s[..n-1], key);
      }
    }
  }

  lemma {:induction false} NoneOfKey<T>(s: seq<Item<T>>, key: Key)
    requires forall i :: 0 <= i < |s| ==> s[i].key != key
    ensures OfKey(s, key) == []
  {
    if s != [] {
      NoneOfKey(s[..|s|-1], key);
    }
  }

  /**
   * However the list changes between calls: keys come in order, and a finished walk has listed every key that was
   * there at each call; with distinct keys in every list, none twice.
   */
  lemma WalkOverChangingLists<T>(lists: seq<seq<Item<T>>>, size: Option<nat>, key: Key)
    requires size.Some? ==> size.value > 0
    ensures var w := WalkOver(lists, size);
            && Sorted(w.listed)
            && (w.done && (forall i :: 0 <= i < |lists| ==> Listed(lists[i], key)) ==> Listed(w.listed, key))
            && ((forall i :: 0 <= i < |lists| ==> DistinctKeys(lists[i])) ==> DistinctKeys(w.listed))
  {
    WalkInOrder(lists, size);
    if forall i :: 0 <= i < |lists| ==> Listed(lists[i], key) {
      WalkReaches(lists, size, key);
    }
    if forall i :: 0 <= i < |lists| ==> DistinctKeys(lists[i]) {
      WalkDistinct(lists, size);
    }
  }

  // ---- A list that does not change -------------------------------------------------------------

  function Again<T>(items: seq<Item<T>>, calls: nat): seq<seq<Item<T>>> { seq(calls, i => items) }

  // Equal keys on both sides of a page's end.
  predicate StraddlesAt<T>(s: seq<Item<T>>, end: nat) { 0 < end < |s| && s[end-1].key == s[end].key }

  // Where so many whole pages end.
  function PageEnd(pages: nat, size: nat): nat { pages * size }

  lemma NextPageEnd(pages: nat, size: nat)
    ensures PageEnd(0, size) == 0
    ensures pages > 0 ==> PageEnd(pages, size) == PageEnd(pages - 1, size) + size
  {
  }

  predicate NoStraddle<T>(s: seq<Item<T>>, size: nat, pages: nat) {
    forall k: nat :: k <= pages ==> !StraddlesAt(s, PageEnd(k, size))
  }

  // So many pages are needed for a list, and no fewer: one for an empty list.
  predicate Needs(n: nat, size: nat, pages: nat) {
    pages > 0 && n <= PageEnd(pages, size) && (pages == 1 || PageEnd(pages - 1, size) < n)
  }

  lemma AgainSteps<T>(items: seq<Item<T>>, calls: nat, size: Option<nat>)
    requires (size.Some? ==> size.value > 0) && calls > 0
    ensures WalkOver(Again(items, calls), size) == Step(WalkOver(Again(items, calls - 1), size), items, size)
  {
    hide WalkOver, Step;
    assert Again(items, calls)[..calls-1] == Again(items, calls - 1);
    WalkSteps(Again(items, calls), size);
  }

  // Up to a page's end where no key straddles, exactly what comes before it has been served.
  lemma ServedUpTo<T>(s: seq<Item<T>>, end: nat)
    requires Sorted(s) && 0 < end <= |s| && !StraddlesAt(s, end)
    ensures Served(s, Some(s[end-1].key)) == end
  {
    hide Le;
    var n := Served(s, Some(s[end-1].key));
    LeTotal(s[end-1].key, s[end-1].key);
    if n > end {
      LeTotal(s[end-1].key, s[end].key);
    }
  }

  // While no key straddles a page's end, the pages are the list cut at multiples of the size.
  lemma {:induction false} PagesAlign<T>(items: seq<Item<T>>, size: nat, calls: nat)
    requires size > 0 && NoStraddle(Sort(items), size, calls) && (calls <= 1 || PageEnd(calls - 1, size) < |items|)
    ensures Aligned(WalkOver(Again(items, calls), Some(size)), Sort(items), calls, PageEnd(calls, size))
    decreases calls
  {
    hide NoStraddle, Sorted, Step, WalkOver, Sort, PageEnd, StraddlesAt, Aligned;
    SortFacts(items);
    NextPageEnd(calls, size);
    if calls > 0 {
      var end := PageEnd(calls - 1, size);
      NextPageEnd(calls - 1, size);
      NoStraddleBefore(Sort(items), size, calls);
      PagesAlign(items, size, calls - 1);
      AgainSteps(items, calls, Some(size));
      AlignedNext(WalkOver(Again(items, calls - 1), Some(size)), items, size, calls, end);
    } else {
      AlignedStart(items, size);
    }
  }

  lemma AlignedStart<T>(items: seq<Item<T>>, size: nat)
    requires size > 0
    ensures Aligned(WalkOver(Again(items, 0), Some(size)), Sort(items), 0, 0)
  {
    assert Again(items, 0) == [];
  }

  // A walk after some calls, `end` items on: at the end of the list, or behind as many whole pages.
  ghost predicate Aligned<T>(w: Walk<T>, s: seq<Item<T>>, calls: nat, end: nat) {
    if calls > 0 && |s| <= end then w.listed == s && w.done && w.after == None
    else end <= |s| && w.listed == s[..end] && !w.done
         && (if end == 0 then w.after == None else w.after == Some(s[end-1].key))
  }

  lemma NoStraddleBefore<T>(s: seq<Item<T>>, size: nat, pages: nat)
    requires pages > 0 && NoStraddle(s, size, pages)
    ensures NoStraddle(s, size, pages - 1) && !StraddlesAt(s, PageEnd(pages - 1, size)) && !StraddlesAt(s, PageEnd(pages, size))
  {
  }

  lemma AlignedNext<T>(w: Walk<T>, items: seq<Item<T>>, size: nat, calls: nat, end: nat)
    requires size > 0 && calls > 0 && Aligned(w, Sort(items), calls - 1, end)
    requires Sorted(Sort(items)) && (calls == 1 ==> end == 0) && (calls > 1 ==> 0 < end < |items| == |Sort(items)|)
    requires calls > 1 ==> !StraddlesAt(Sort(items), end)
    ensures Aligned(Step(w, items, Some(size)), Sort(items), calls, end + size)
  {
    hide Sort, Served, Step, Sorted;
    if calls > 1 {
      ServedUpTo(Sort(items), end);
    }
    AlignedStep(w, items, size, end);
  }

  lemma AlignedStep<T>(w: Walk<T>, items: seq<Item<T>>, size: nat, end: nat)
    requires size > 0 && !w.done && end <= |Sort(items)| && w.listed == Sort(items)[..end] && Served(Sort(items), w.after) == end
    ensures var s := Sort(items);
            var t := Step(w, items, Some(size));
            if |s| <= end + size then t == Walk(s, true, None)
            else t == Walk(s[..end+size], false, Some(s[end+size-1].key))
  {
    hide Sort, Served;
    var s := Sort(items);
    var rest := s[end..];
    if |rest| > size {
      assert s[..end] + rest[..size] == s[..end+size];
    } else {
      assert s[..end] + rest == s;
    }
  }

  /** A walk of a list with distinct keys gives it whole, in order, in as many calls as its pages: one if it is empty. */
  lemma WalkOfDistinctKeys<T>(items: seq<Item<T>>, size: nat, calls: nat)
    requires size > 0 && DistinctKeys(items) && Needs(|items|, size, calls)
    ensures WalkOver(Again(items, calls), Some(size)) == Walk(Sort(items), true, None)
    ensures !WalkOver(Again(items, calls - 1), Some(size)).done
  {
    hide WalkOver, NoStraddle, DistinctKeys, Sorted, Aligned, Sort, PageEnd;
    SortDistinct(items);
    SortFacts(items);
    DistinctNeverStraddles(Sort(items), size, calls);
    DistinctNeverStraddles(Sort(items), size, calls - 1);
    NextPageEnd(calls - 1, size);
    PagesAlign(items, size, calls);
    PagesAlign(items, size, calls - 1);
    AlignedAtEnd(WalkOver(Again(items, calls), Some(size)), Sort(items), calls, PageEnd(calls, size));
    AlignedShort(WalkOver(Again(items, calls - 1), Some(size)), Sort(items), calls - 1, PageEnd(calls - 1, size));
  }

  lemma AlignedAtEnd<T>(w: Walk<T>, s: seq<Item<T>>, calls: nat, end: nat)
    requires Aligned(w, s, calls, end) && calls > 0 && |s| <= end
    ensures w == Walk(s, true, None)
  {
  }

  lemma AlignedShort<T>(w: Walk<T>, s: seq<Item<T>>, calls: nat, end: nat)
    requires Aligned(w, s, calls, end) && (calls == 0 || end < |s|)
    ensures !w.done
  {
  }

  lemma DistinctNeverStraddles<T>(s: seq<Item<T>>, size: nat, pages: nat)
    requires DistinctKeys(s)
    ensures NoStraddle(s, size, pages)
  {
    forall k: nat | k <= pages
      ensures !StraddlesAt(s, PageEnd(k, size))
    {
      var end := PageEnd(k, size);
    }
  }

  // Past a straddled end, the item after it is never listed in its place.
  lemma {:induction false} SkippedForGood<T>(items: seq<Item<T>>, size: nat, from: nat, calls: nat)
    requires size > 0 && from <= calls
    requires var w := WalkOver(Again(items, from), Some(size)); !w.done && w.after.Some?
    ensures var w := WalkOver(Again(items, from), Some(size));
            var t := WalkOver(Again(items, calls), Some(size));
            && w.listed <= t.listed
            && (!t.done ==> t.after.Some? && Le(w.after.value, t.after.value))
            && forall i :: |w.listed| <= i < |t.listed| ==> !Le(t.listed[i].key, w.after.value)
    decreases calls
  {
    hide WalkOver, Step, Sorted, Sort, Le;
    var w := WalkOver(Again(items, from), Some(size));
    LeTotal(w.after.value, w.after.value);
    if calls > from {
      SkippedForGood(items, size, from, calls - 1);
      var u := WalkOver(Again(items, calls - 1), Some(size));
      AgainSteps(items, calls, Some(size));
      if u.done {
        DoneStays(u, items, Some(size));
      } else {
        StepLists(u, items, Some(size));
        FurtherOn(w, u, Step(u, items, Some(size)));
      }
    }
  }

  lemma FurtherOn<T>(w: Walk<T>, u: Walk<T>, t: Walk<T>)
    requires w.after.Some? && u.after.Some? && w.listed <= u.listed && u.listed <= t.listed && Le(w.after.value, u.after.value)
    requires forall i :: |w.listed| <= i < |u.listed| ==> !Le(u.listed[i].key, w.after.value)
    requires forall i :: 0 <= i < |t.listed[|u.listed|..]| ==> Before(u.after, t.listed[|u.listed|..][i].key)
    requires !t.done ==> t.listed[|u.listed|..] != [] && t.after == Some(t.listed[|u.listed|..][|t.listed[|u.listed|..]|-1].key)
    ensures !t.done ==> Le(w.after.value, t.after.value)
    ensures forall i :: |w.listed| <= i < |t.listed| ==> !Le(t.listed[i].key, w.after.value)
  {
    var more := t.listed[|u.listed|..];
    forall i | 0 <= i < |more|
      ensures !Le(more[i].key, w.after.value) && Le(w.after.value, more[i].key)
    {
      LeTotal(more[i].key, w.after.value);
      if Le(more[i].key, w.after.value) {
        LeTransitive(more[i].key, w.after.value, u.after.value);
      }
    }
    forall i | |w.listed| <= i < |t.listed|
      ensures !Le(t.listed[i].key, w.after.value)
    {
      if i >= |u.listed| {
        assert t.listed[i] == more[i-|u.listed|];
      }
    }
  }

  /**
   * A walk of a list that does not change gives the whole of it exactly when no key straddles a page's end: items
   * of one key cut by a page's end are skipped.
   */
  lemma WalkIsCompleteIffNoKeyStraddles<T>(items: seq<Item<T>>, size: nat, calls: nat)
    requires size > 0 && Needs(|items|, size, calls)
    ensures (exists n :: WalkOver(Again(items, n), Some(size)) == Walk(Sort(items), true, None)) <==>
            NoStraddle(Sort(items), size, calls)
  {
    hide WalkOver, NoStraddle, Sorted, Sort, PageEnd, Aligned, StraddlesAt;
    var s := Sort(items);
    SortFacts(items);
    if NoStraddle(s, size, calls) {
      PagesAlign(items, size, calls);
      AlignedAtEnd(WalkOver(Again(items, calls), Some(size)), s, calls, PageEnd(calls, size));
      assert WalkOver(Again(items, calls), Some(size)) == Walk(s, true, None);
    } else {
      var k := FirstStraddle(s, size, calls);
      forall n
        ensures WalkOver(Again(items, n), Some(size)) != Walk(s, true, None)
      {
        StraddledIsIncomplete(items, size, k, n);
      }
    }
  }

  lemma {:induction false} FirstStraddle<T>(s: seq<Item<T>>, size: nat, pages: nat) returns (k: nat)
    requires !NoStraddle(s, size, pages)
    ensures 0 < k <= pages && StraddlesAt(s, PageEnd(k, size)) && NoStraddle(s, size, k - 1)
    decreases pages
  {
    hide PageEnd;
    NextPageEnd(0, size);
    if pages > 0 && !NoStraddle(s, size, pages - 1) {
      k := FirstStraddle(s, size, pages - 1);
    } else {
      var j: nat :| j <= pages && StraddlesAt(s, PageEnd(j, size));
      assert j == pages;
      k := pages;
    }
  }

  lemma StraddledIsIncomplete<T>(items: seq<Item<T>>, size: nat, k: nat, n: nat)
    requires size > 0 && k > 0 && StraddlesAt(Sort(items), PageEnd(k, size)) && NoStraddle(Sort(items), size, k - 1)
    ensures WalkOver(Again(items, n), Some(size)) != Walk(Sort(items), true, None)
  {
    hide WalkOver, NoStraddle, Sorted, Sort, PageEnd, Le;
    var s := Sort(items);
    StraddledPage(items, size, k);
    var end := PageEnd(k, size);
    LeTotal(s[end].key, s[end-1].key);
    if n >= k {
      SkippedForGood(items, size, k, n);
    } else {
      StillGoing(items, size, n, k);
    }
  }

  // Where a walk is after some pages, short of the end.
  lemma AlignedAt<T>(items: seq<Item<T>>, size: nat, calls: nat)
    requires size > 0 && PageEnd(calls, size) < |items| && NoStraddle(Sort(items), size, calls)
    ensures var s := Sort(items);
            var w := WalkOver(Again(items, calls), Some(size));
            && |s| == |items| && Aligned(w, s, calls, PageEnd(calls, size)) && Served(s, w.after) == PageEnd(calls, size)
  {
    hide NoStraddle, WalkOver, Served, PageEnd, Sort, Sorted;
    var s := Sort(items);
    SortFacts(items);
    NextPageEnd(calls, size);
    if calls > 0 {
      NoStraddleBefore(s, size, calls);
      ServedUpTo(s, PageEnd(calls, size));
    }
    PagesAlign(items, size, calls);
  }

  // The pages before a straddled end align, and the one up to it ends there.
  lemma StraddledPage<T>(items: seq<Item<T>>, size: nat, k: nat)
    requires size > 0 && k > 0 && StraddlesAt(Sort(items), PageEnd(k, size)) && NoStraddle(Sort(items), size, k - 1)
    ensures var s := Sort(items);
            var end := PageEnd(k, size);
            WalkOver(Again(items, k), Some(size)) == Walk(s[..end], false, Some(s[end-1].key))
  {
    hide NoStraddle, WalkOver, Step, Served, Sorted, Sort, PageEnd;
    NextPageEnd(k, size);
    SortFacts(items);
    AlignedAt(items, size, k - 1);
    AgainSteps(items, k, Some(size));
    AlignedStep(WalkOver(Again(items, k - 1), Some(size)), items, size, PageEnd(k - 1, size));
  }

  lemma {:induction false} StillGoing<T>(items: seq<Item<T>>, size: nat, n: nat, k: nat)
    requires size > 0 && n <= k && !WalkOver(Again(items, k), Some(size)).done
    ensures !WalkOver(Again(items, n), Some(size)).done
    decreases k - n
  {
    hide WalkOver;
    if n < k {
      StillGoing(items, size, n + 1, k);
      AgainSteps(items, n + 1, Some(size));
    }
  }

  // ---- In numbers ------------------------------------------------------------------------------

  // The pages of a list: its length over the page size, rounded up, and one if it is empty.
  function PagesOf(n: nat, size: nat): nat
    requires size > 0
  {
    if n == 0 then 1 else (n + size - 1) / size
  }

  lemma NeedsItsPages(n: nat, size: nat)
    requires size > 0
    ensures Needs(n, size, PagesOf(n, size))
  {
    if n > 0 {
      var q := (n + size - 1) / size;
      assert n + size - 1 == q * size + (n + size - 1) % size;
      assert q == 0 ==> q * size == 0;
      NextPageEnd(q, size);
    } else {
      NextPageEnd(1, size);
    }
  }

  /** A walk of a list with distinct keys takes exactly its pages, and gives the whole of it in order. */
  lemma WalkTakesItsPages<T>(items: seq<Item<T>>, size: nat)
    requires size > 0 && forall i, j :: 0 <= i < j < |items| ==> items[i].key != items[j].key
    ensures WalkOver(Again(items, PagesOf(|items|, size)), Some(size)) == Walk(Sort(items), true, None)
    ensures !WalkOver(Again(items, PagesOf(|items|, size) - 1), Some(size)).done
  {
    hide WalkOver, Again, Sort;
    NeedsItsPages(|items|, size);
    WalkOfDistinctKeys(items, size, PagesOf(|items|, size));
  }

  // A key stands on both sides of the end of some page that is not the last.
  ghost predicate SomeKeyStraddles<T>(s: seq<Item<T>>, size: nat) {
    exists k: nat :: 0 < PageEnd(k, size) < |s| && s[PageEnd(k, size)-1].key == s[PageEnd(k, size)].key
  }

  /** A page ends where so many pages of its size do. */
  lemma PageEnds(k: nat, size: nat)
    ensures PageEnd(k, size) == k * size
  {
  }

  /** A walk of a list that does not change ever gives the whole of it if and only if no key straddles a page's end. */
  lemma WalkEverCompletesIff<T>(items: seq<Item<T>>, size: nat)
    requires size > 0
    ensures (exists n: nat :: WalkOver(Again(items, n), Some(size)) == Walk(Sort(items), true, None)) <==>
            !SomeKeyStraddles(Sort(items), size)
  {
    var pages := PagesOf(|items|, size);
    NeedsItsPages(|items|, size);
    WalkIsCompleteIffNoKeyStraddles(items, size, pages);
    SortFacts(items);
    hide WalkOver, Again, Sort;
    forall k: nat | k > pages
      ensures PageEnd(k, size) >= |items|
    {
      PagesGrow(pages, k, size);
    }
    hide PageEnd;
  }

  lemma {:induction false} PagesGrow(k: nat, l: nat, size: nat)
    requires k <= l
    ensures PageEnd(k, size) <= PageEnd(l, size)
    decreases l
  {
    if k < l {
      NextPageEnd(l, size);
      PagesGrow(k, l - 1, size);
    }
  }
}
