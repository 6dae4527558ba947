/**
 The names under which the server stores and reports things: decimal numerals, the three kinds of
 store key that share one namespace, and the `bucket_<id>` names of snapshots and deltas.
 */
module KeyCodec {
  import opened Basics

  // ---------- decimal numerals ----------

  function Digit(d: nat): char
    requires d < 10
  {
    ('0' as int + d) as char
  }

  /** What `u64::to_string` prints. */
  function Decimal(n: nat): string {
    if n < 10 then [Digit(n)] else Decimal(n / 10) + [Digit(n % 10)]
  }

  predicate IsDigit(c: char) {
    '0' <= c <= '9'
  }

  predicate AllDigits(s: string) {
    forall i :: 0 <= i < |s| ==> IsDigit(s[i])
  }

  function NatOf(s: string): nat
    requires AllDigits(s)
  {
    if s == "" then 0 else NatOf(s[..|s| - 1]) * 10 + (s[|s| - 1] as int - '0' as int)
  }

  /**
   `str::parse::<u64>`: one optional `+`, then at least one digit, and no overflow. The overflow test
   at each digit and the one test at the end agree, because a prefix is never larger than the whole.
   */
  function ParseU64(s: string): Option<u64> {
    var digits := if s != "" && s[0] == '+' then s[1..] else s;
    if digits == "" || !AllDigits(digits) || NatOf(digits) > U64_MAX then None else Some(NatOf(digits))
  }

  lemma {:induction false} DecimalDigits(n: nat)
    ensures Decimal(n) != "" && AllDigits(Decimal(n)) && NatOf(Decimal(n)) == n
  {
    if n >= 10 {
      DecimalDigits(n / 10);
      assert Decimal(n)[..|Decimal(n)| - 1] == Decimal(n / 10);
    } else {
      assert Decimal(n)[..0] == "";
    }
  }

  lemma ParseDecimal(n: nat)
    ensures ParseU64(Decimal(n)) == if n <= U64_MAX then Some(n) else None
  {
    DecimalDigits(n);
    assert IsDigit(Decimal(n)[0]);
  }

  function Zeros(z: nat): string {
    seq(z, _ => '0')
  }

  lemma {:induction false} DigitsAreZerosThenDecimal(s: string) returns (z: nat)
    requires s != "" && AllDigits(s)
    ensures s == Zeros(z) + Decimal(NatOf(s))
  {
    var init, last := s[..|s| - 1], s[|s| - 1];
    assert s == init + [last];
    if init == "" {
      z := 0;
      assert NatOf(init) == 0;
      assert Digit(NatOf(s)) == last;
    } else {
      z := DigitsAreZerosThenDecimal(init);
      var d := last as int - '0' as int;
      assert NatOf(s) == NatOf(init) * 10 + d && Digit(d) == last;
      if NatOf(init) == 0 {
        // the numeral of the prefix is "0" itself, which joins the leading zeros
        assert Decimal(NatOf(init)) == "0" && Decimal(NatOf(s)) == [last];
        assert Zeros(z) + "0" == Zeros(z + 1);
        z := z + 1;
        assert s == Zeros(z) + [last];
      } else {
        assert NatOf(s) / 10 == NatOf(init) && NatOf(s) % 10 == d;
        assert Decimal(NatOf(s)) == Decimal(NatOf(init)) + [last];
      }
    }
  }

  lemma {:induction false} LeadingZeros(z: nat, n: nat)
    ensures AllDigits(Zeros(z) + Decimal(n)) && NatOf(Zeros(z) + Decimal(n)) == n
    decreases z, n
  {
    DecimalDigits(n);
    var s := Zeros(z) + Decimal(n);
    if n >= 10 {
      LeadingZeros(z, n / 10);
      assert s[..|s| - 1] == Zeros(z) + Decimal(n / 10);
    } else if z > 0 {
      LeadingZeros(z - 1, 0);
      assert s[..|s| - 1] == Zeros(z - 1) + Decimal(0);
    } else {
      assert s == Decimal(n);
    }
  }

  predicate Spells(s: string, n: nat, z: nat) {
    s == Zeros(z) + Decimal(n) || s == "+" + (Zeros(z) + Decimal(n))
  }

  lemma SpelledIsRead(s: string, n: u64, z: nat)
    requires Spells(s, n, z)
    ensures ParseU64(s) == Some(n)
  {
    var body := Zeros(z) + Decimal(n);
    LeadingZeros(z, n);
    assert body != "" && IsDigit(body[0]) by { DecimalDigits(n); }
    if s != body {
      assert s[1..] == body;
    }
  }

  lemma ReadIsSpelled(s: string, n: u64) returns (z: nat)
    requires ParseU64(s) == Some(n)
    ensures Spells(s, n, z)
  {
    var digits := if s != "" && s[0] == '+' then s[1..] else s;
    z := DigitsAreZerosThenDecimal(digits);
    if digits != s {
      assert s == "+" + digits;
    }
  }

  /** The numerals the parser reads as `n`: an optional plus sign, any leading zeros, then the printed form. */
  lemma ParseExact(s: string, n: u64)
    ensures ParseU64(s) == Some(n) <==> exists z: nat :: Spells(s, n, z)
  {
    if ParseU64(s) == Some(n) {
      var z := ReadIsSpelled(s, n);
    }
    if z: nat :| Spells(s, n, z) {
      SpelledIsRead(s, n, z);
    }
  }

  /** Printed numerals have no leading zeros. */
  lemma {:induction false} NoLeadingZero(n: nat)
    ensures Decimal(n)[0] == '0' <==> n == 0
  {
    DecimalDigits(n);
    if n >= 10 {
      NoLeadingZero(n / 10);
      assert Decimal(n)[0] == Decimal(n / 10)[0] by { DecimalDigits(n / 10); }
    }
  }

  lemma DecimalInjective(m: nat, n: nat)
    requires Decimal(m) == Decimal(n)
    ensures m == n
  {
    DecimalDigits(m);
    DecimalDigits(n);
  }

  // ---------- fragment keys ----------

  function FragmentKey(bucket: u64, key: string): string {
    Decimal(bucket) + ":" + key
  }

  /** Position of the first colon, or the length when there is none. */
  function FirstColon(s: string): (i: nat)
    ensures i <= |s| && (i < |s| ==> s[i] == ':')
    ensures forall j :: 0 <= j < i ==> s[j] != ':'
  {
    if s == "" || s[0] == ':' then 0 else 1 + FirstColon(s[1..])
  }

  /** How the fragment scan reads a stored key. */
  function SplitFragmentKey(s: string): Option<(u64, string)> {
    var i := FirstColon(s);
    if i == |s| then None
    else match ParseU64(s[..i])
      case None => None
      case Some(bucket) => Some((bucket, s[i + 1..]))
  }

  /** The scan recovers bucket and key, also when the key itself holds colons. */
  lemma SplitRoundTrip(bucket: u64, key: string)
    ensures SplitFragmentKey(FragmentKey(bucket, key)) == Some((bucket, key))
  {
    var s := FragmentKey(bucket, key);
    var d := Decimal(bucket);
    DecimalDigits(bucket);
    ParseDecimal(bucket);
    assert s[|d|] == ':';
    assert forall j :: 0 <= j < |d| ==> s[j] == d[j] && IsDigit(d[j]);
    assert FirstColon(s) == |d|;
    assert s[..|d|] == d && s[|d| + 1..] == key;
  }

  lemma FragmentKeyInjective(b: u64, k: string, b': u64, k': string)
    requires FragmentKey(b, k) == FragmentKey(b', k')
    ensures b == b' && k == k'
  {
    SplitRoundTrip(b, k);
    SplitRoundTrip(b', k');
  }

  // ---------- bucket record keys ----------

  const BUCKET_PREFIX := "bucket:"

  function BucketKey(bucket: u64): string {
    BUCKET_PREFIX + Decimal(bucket)
  }

  /** How the bucket scan reads a stored key. */
  function ParseBucketKey(s: string): Option<u64> {
    if BUCKET_PREFIX <= s then ParseU64(s[|BUCKET_PREFIX|..]) else None
  }

  lemma BucketKeyRoundTrip(bucket: u64)
    ensures ParseBucketKey(BucketKey(bucket)) == Some(bucket)
  {
    ParseDecimal(bucket);
    assert BucketKey(bucket)[|BUCKET_PREFIX|..] == Decimal(bucket);
  }

  // ---------- list keys ----------

  function BucketListKey(room: nat): string {
    "/room/" + Decimal(room) + "/buckets"
  }

  function MemberListKey(room: nat): string {
    "/room/" + Decimal(room) + "/members"
  }

  /** The three kinds of record never shadow one another, and neither scan mistakes one for another. */
  lemma KindsDisjoint(b: u64, k: string, id: u64, room: nat)
    ensures FragmentKey(b, k) != BucketKey(id) && ParseBucketKey(FragmentKey(b, k)) == None
    ensures SplitFragmentKey(BucketKey(id)) == None
    ensures BucketListKey(room) != MemberListKey(room)
    ensures forall list | list in {BucketListKey(room), MemberListKey(room)} ::
              && list != FragmentKey(b, k) && list != BucketKey(id)
              && ParseBucketKey(list) == None && SplitFragmentKey(list) == None
  {
    DecimalDigits(b);
    assert IsDigit(FragmentKey(b, k)[0]) by { assert FragmentKey(b, k)[0] == Decimal(b)[0]; }
    assert BucketKey(id)[0] == 'b';
    var i := FirstColon(BucketKey(id));
    assert BucketKey(id)[6] == ':' && i <= 6;
    assert forall j :: 0 <= j < 6 ==> BucketKey(id)[j] == BUCKET_PREFIX[j] != ':';
    assert BucketKey(id)[..i][0] == 'b';
    var l, m := BucketListKey(room), MemberListKey(room);
    assert l[|l| - 1] == 's' && m[|m| - 1] == 's' && l[|l| - 2] == 't' && m[|m| - 2] == 'r';
    forall list | list in {l, m}
      ensures ParseBucketKey(list) == None && SplitFragmentKey(list) == None && list[0] == '/'
    {
      assert list[0] == '/';
      var i := FirstColon(list);
      if i < |list| {
        assert i > 0 && list[..i][0] == '/';
      }
    }
  }

  // ---------- bucket names in snapshots and deltas ----------

  function BucketName(bucket: u64): string {
    "bucket_" + Decimal(bucket)
  }

  /** The names as they appear on disk and in JSON. */
  lemma NamesSpelledOut(b: u64, k: string, room: nat)
    ensures FragmentKey(b, k) == Decimal(b) + ":" + k
    ensures BucketKey(b) == "bucket:" + Decimal(b)
    ensures BucketListKey(room) == "/room/" + Decimal(room) + "/buckets"
    ensures MemberListKey(room) == "/room/" + Decimal(room) + "/members"
    ensures BucketName(b) == "bucket_" + Decimal(b)
    ensures Decimal(0) == "0" && Decimal(7) == "7" && Decimal(10) == "10" && Decimal(1024) == "1024"
  {
    assert Decimal(102) == "102";
  }

  lemma BucketNameInjective(b: u64, b': u64)
    requires BucketName(b) == BucketName(b')
    ensures b == b'
  {
    assert Decimal(b) == BucketName(b)[7..] == BucketName(b')[7..] == Decimal(b');
    DecimalInjective(b, b');
  }
}
