/** How `CArchive` lays values out as bytes, and how it reads them back. */
module ArchiveBytes {

  type Byte = c: char | c as int < 256 witness 'a'

  const MAX_TEXT := 100 * 1024 * 1024

  /** A `std::string` that the archive takes. */
  type Text = s: seq<Byte> | |s| <= MAX_TEXT

  const TWO_TO_THE_31 := 0x8000_0000
  const TWO_TO_THE_32 := 0x1_0000_0000
  const TWO_TO_THE_63 := 0x8000_0000_0000_0000
  const TWO_TO_THE_64 := 0x1_0000_0000_0000_0000

  type Int = x: int | -TWO_TO_THE_31 <= x < TWO_TO_THE_31
  type Long = x: int | -TWO_TO_THE_63 <= x < TWO_TO_THE_63

  /** A value and the bytes after it; or the archive ended early, or refused a text as too long. */
  datatype Parsed<+T> = Got(value: T, rest: seq<Byte>) | Failed

  function Power(k: nat): (r: nat)
    ensures r > 0
  {
    if k == 0 then 1 else 256 * Power(k - 1)
  }

  /** The lowest byte first. */
  function PutWord(k: nat, x: nat): (r: seq<Byte>)
    ensures |r| == k
  {
    if k == 0 then [] else [(x % 256) as char] + PutWord(k - 1, x / 256)
  }

  function GetWord(k: nat, s: seq<Byte>): (r: Parsed<nat>)
    ensures r.Got? ==> r.value < Power(k) && |s| == k + |r.rest|
  {
    if k == 0 then Got(0, s)
    else if s == [] then Failed
    else
      match GetWord(k - 1, s[1..])
      case Got(high, rest) => Got(s[0] as int + 256 * high, rest)
      case Failed => Failed
  }

  lemma LowAndHigh(x: nat, p: nat)
    requires x < 256 * p
    ensures x == x % 256 + 256 * (x / 256) && x / 256 < p
  {
  }

  lemma FirstByte(k: nat, x: nat, rest: seq<Byte>)
    requires k > 0
    ensures var s := PutWord(k, x) + rest;
      s != [] && s[0] as int == x % 256 && s[1..] == PutWord(k - 1, x / 256) + rest
  {
  }

  lemma {:induction false} WordRoundTrip(k: nat, x: nat, rest: seq<Byte>)
    requires x < Power(k)
    ensures GetWord(k, PutWord(k, x) + rest) == Got(x, rest)
  {
    if k == 0 {
      assert PutWord(k, x) + rest == rest;
    } else {
      LowAndHigh(x, Power(k - 1));
      WordRoundTrip(k - 1, x / 256, rest);
      FirstByte(k, x, rest);
    }
  }

  /** Each byte is a digit to base 256, the lowest first. */
  lemma {:induction false} ByteOfWord(k: nat, x: nat, i: nat)
    requires i < k
    ensures PutWord(k, x)[i] as int == x / Power(i) % 256
  {
    if i > 0 {
      ByteOfWord(k - 1, x / 256, i - 1);
      DividedTwice(x, Power(i - 1));
    }
  }

  lemma DividedTwice(x: nat, p: nat)
    requires p > 0
    ensures x / (256 * p) == x / 256 / p
  {
    var q := x / 256 / p;
    assert x / 256 == q * p + x / 256 % p && x == 256 * (x / 256) + x % 256;
    assert x == (256 * p) * q + (256 * (x / 256 % p) + x % 256);
    DividesOnce(x, 256 * p, q, 256 * (x / 256 % p) + x % 256);
  }

  lemma DividesOnce(x: nat, d: nat, q: nat, r: nat)
    requires r < d && x == d * q + r
    ensures x / d == q
  {
    var k: int := x / d - q;
    var less: int := r - x % d;
    assert d * k == less;
    SmallMultiple(d, k);
  }

  /** A multiple that is smaller is none. */
  lemma SmallMultiple(d: int, k: int)
    requires d > 0
    ensures -d < d * k < d ==> k == 0
  {
    if k >= 1 { assert d * k >= d; }
    if k <= -1 { assert d * k <= -d; }
  }

  lemma Powers()
    ensures Power(4) == TWO_TO_THE_32 && Power(8) == TWO_TO_THE_64
  {
    assert Power(2) == 256 * Power(1) == 0x1_0000;
    assert Power(4) == 256 * Power(3) == 256 * (256 * Power(2));
    assert Power(6) == 256 * Power(5) == 256 * (256 * Power(4));
    assert Power(8) == 256 * Power(7) == 256 * (256 * Power(6));
  }

  /** What a conversion to `int` makes of a number: it wraps around at 32 bits. */
  function ToInt(n: int): (r: Int)
    ensures r == n <==> -TWO_TO_THE_31 <= n < TWO_TO_THE_31
  {
    var m := n % TWO_TO_THE_32;
    if m < TWO_TO_THE_31 then m else m - TWO_TO_THE_32
  }

  function PutInt(x: Int): seq<Byte> { PutWord(4, x % TWO_TO_THE_32) }

  function GetInt(s: seq<Byte>): Parsed<Int> {
    match GetWord(4, s)
    case Got(w, rest) => Got(ToInt(w), rest)
    case Failed => Failed
  }

  function PutLong(x: Long): seq<Byte> { PutWord(8, x % TWO_TO_THE_64) }

  function GetLong(s: seq<Byte>): Parsed<Long> {
    Powers();
    match GetWord(8, s)
    case Got(w, rest) => Got(if w < TWO_TO_THE_63 then w else w - TWO_TO_THE_64, rest)
    case Failed => Failed
  }

  function PutFlag(b: bool): seq<Byte> { PutWord(1, if b then 1 else 0) }

  function GetFlag(s: seq<Byte>): Parsed<bool> {
    match GetWord(1, s)
    case Got(w, rest) => Got(w != 0, rest)
    case Failed => Failed
  }

  function PutText(t: Text): seq<Byte> { PutWord(4, |t|) + t }

  function GetText(s: seq<Byte>): Parsed<Text> {
    match GetWord(4, s)
    case Got(n, rest) => if n > MAX_TEXT || n > |rest| then Failed else Got(rest[..n], rest[n..])
    case Failed => Failed
  }

  lemma IntRoundTrip(x: Int, rest: seq<Byte>)
    ensures GetInt(PutInt(x) + rest) == Got(x, rest)
  {
    Powers();
    WordRoundTrip(4, x % TWO_TO_THE_32, rest);
  }

  lemma LongRoundTrip(x: Long, rest: seq<Byte>)
    ensures GetLong(PutLong(x) + rest) == Got(x, rest)
  {
    Powers();
    var w := if x >= 0 then x else x + TWO_TO_THE_64;
    assert x % TWO_TO_THE_64 == w;
    WordRoundTrip(8, w, rest);
  }

  lemma FlagRoundTrip(b: bool, rest: seq<Byte>)
    ensures GetFlag(PutFlag(b) + rest) == Got(b, rest)
  {
    assert Power(1) == 256 * Power(0);
    WordRoundTrip(1, if b then 1 else 0, rest);
  }

  lemma TextRoundTrip(t: Text, rest: seq<Byte>)
    ensures GetText(PutText(t) + rest) == Got(t, rest)
  {
    Powers();
    WordRoundTrip(4, |t|, t + rest);
    assert PutText(t) + rest == PutWord(4, |t|) + (t + rest);
    assert (t + rest)[..|t|] == t && (t + rest)[|t|..] == rest;
  }

  /** A count of 32 bits that is written as `int` and read as `unsigned int`. */
  lemma CountRoundTrip(n: nat, rest: seq<Byte>)
    ensures GetWord(4, PutInt(ToInt(n)) + rest) == Got(n % TWO_TO_THE_32, rest)
  {
    Powers();
    assert ToInt(n) % TWO_TO_THE_32 == n % TWO_TO_THE_32;
    WordRoundTrip(4, n % TWO_TO_THE_32, rest);
  }

  lemma SmallCountRoundTrip(n: nat, rest: seq<Byte>)
    requires n < TWO_TO_THE_32
    ensures GetWord(4, PutInt(ToInt(n)) + rest) == Got(n, rest)
  {
    CountRoundTrip(n, rest);
    assert n % TWO_TO_THE_32 == n;
  }

  // ----- Concatenations: bytes are appended one value after another, and read from the front -----

  lemma Nest2(a: seq<Byte>, b: seq<Byte>, rest: seq<Byte>)
    ensures a + b + rest == a + (b + rest)
  {
  }

  lemma Nest3(a: seq<Byte>, b: seq<Byte>, c: seq<Byte>, rest: seq<Byte>)
    ensures a + b + c + rest == a + (b + (c + rest))
  {
  }

  lemma Nest4(a: seq<Byte>, b: seq<Byte>, c: seq<Byte>, d: seq<Byte>, rest: seq<Byte>)
    ensures a + b + c + d + rest == a + (b + (c + (d + rest)))
  {
    Nest3(a, b, c, d + rest);
  }

  lemma Nest5(a: seq<Byte>, b: seq<Byte>, c: seq<Byte>, d: seq<Byte>, e: seq<Byte>, rest: seq<Byte>)
    ensures a + b + c + d + e + rest == a + (b + (c + (d + (e + rest))))
  {
    Nest4(a, b, c, d, e + rest);
  }

  // ----- Counted runs of values of one kind -----

  function PutAll<T>(put: T -> seq<Byte>, xs: seq<T>): seq<Byte> {
    if xs == [] then [] else put(xs[0]) + PutAll(put, xs[1..])
  }

  function GetAll<T>(get: seq<Byte> -> Parsed<T>, n: nat, s: seq<Byte>): (r: Parsed<seq<T>>)
    ensures r.Got? ==> |r.value| == n
  {
    if n == 0 then Got([], s)
    else
      match get(s) case Failed => Failed case Got(x, s1) =>
      match GetAll(get, n - 1, s1) case Failed => Failed case Got(xs, s2) =>
      Got([x] + xs, s2)
  }

  ghost predicate ReadsBack<T(!new)>(put: T -> seq<Byte>, get: seq<Byte> -> Parsed<T>) {
    forall x, rest :: get(put(x) + rest) == Got(x, rest)
  }

  lemma {:induction false} AllRoundTrip<T(!new)>(put: T -> seq<Byte>, get: seq<Byte> -> Parsed<T>,
                                                     xs: seq<T>, rest: seq<Byte>)
    requires ReadsBack(put, get)
    ensures GetAll(get, |xs|, PutAll(put, xs) + rest) == Got(xs, rest)
  {
    if xs == [] {
      assert PutAll(put, xs) + rest == rest;
    } else {
      var after := PutAll(put, xs[1..]) + rest;
      Nest2(put(xs[0]), PutAll(put, xs[1..]), rest);
      assert get(put(xs[0]) + after) == Got(xs[0], after);
      AllRoundTrip(put, get, xs[1..], rest);
      assert [xs[0]] + xs[1..] == xs;
    }
  }

  /** Appending the values one by one. */
  lemma PutAllStep<T>(put: T -> seq<Byte>, xs: seq<T>, i: nat, bytes: seq<Byte>)
    requires i < |xs|
    ensures bytes + PutAll(put, xs[i..]) == bytes + put(xs[i]) + PutAll(put, xs[i + 1..])
  {
    assert xs[i..][1..] == xs[i + 1..];
    Nest2(bytes, put(xs[i]), PutAll(put, xs[i + 1..]));
  }

  /** What was got before, and then what is got next. */
  function Following<T>(got: seq<T>, p: Parsed<seq<T>>): Parsed<seq<T>> {
    match p case Got(xs, rest) => Got(got + xs, rest) case Failed => Failed
  }

  /** Reading the values one by one. */
  lemma GetAllStep<T>(get: seq<Byte> -> Parsed<T>, got: seq<T>, n: nat, s: seq<Byte>)
    requires n > 0
    ensures get(s).Failed? ==> GetAll(get, n, s).Failed?
    ensures get(s).Got? ==>
      Following(got, GetAll(get, n, s)) == Following(got + [get(s).value], GetAll(get, n - 1, get(s).rest))
  {
    if get(s).Got? && GetAll(get, n - 1, get(s).rest).Got? {
      var x, xs := get(s).value, GetAll(get, n - 1, get(s).rest).value;
      assert got + [x] + xs == got + ([x] + xs);
    }
  }
}
