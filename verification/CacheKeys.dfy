/** Printing and parsing cache keys, `dns:<name>:<type>:<class>`. */
module CacheKeys {
  import opened Types

  newtype uint16 = n: int | 0 <= n < 0x1_0000

  const MAX_INT64: int := 0x7fff_ffff_ffff_ffff

  datatype Question = Question(name: string, qtype: uint16, qclass: uint16)

  // ---------- Decimals ----------

  predicate IsDigit(c: char) {
    '0' <= c <= '9'
  }

  function Digit(n: nat): (c: char)
    requires n < 10
    ensures IsDigit(c)
  {
    '0' + n as char
  }

  /** `%d` of a natural number. */
  function Decimal(n: nat): (s: string)
    ensures s != "" && forall c <- s :: IsDigit(c)
  {
    if n < 10 then [Digit(n)] else Decimal(n / 10) + [Digit(n % 10)]
  }

  function DigitValue(c: char): nat
    requires IsDigit(c)
  {
    (c as int) - ('0' as int)
  }

  function Value(s: string): nat
    requires forall c <- s :: IsDigit(c)
  {
    if s == "" then 0 else 10 * Value(s[..|s| - 1]) + DigitValue(s[|s| - 1])
  }

  /** Atoi: an optional sign, then at least one digit, within 64 bits. */
  function Atoi(s: string): Option<int> {
    var signed := s != "" && (s[0] == '+' || s[0] == '-');
    var digits := if signed then s[1..] else s;
    if digits == "" || exists c <- digits :: !IsDigit(c) then None
    else
      var m: int := Value(digits);
      var v := if signed && s[0] == '-' then -m else m;
      if -MAX_INT64 - 1 <= v <= MAX_INT64 then Some(v) else None
  }

  /** The conversion of a 64-bit integer to 16 bits keeps the low bits. */
  function ToUint16(v: int): uint16 {
    (v % 0x1_0000) as uint16
  }

  lemma DecimalValue(n: nat)
    ensures Value(Decimal(n)) == n
  {
    if n >= 10 {
      DecimalValue(n / 10);
      assert Decimal(n)[..|Decimal(n)| - 1] == Decimal(n / 10);
    }
  }

  lemma AtoiDecimal(n: uint16)
    ensures Atoi(Decimal(n as nat)) == Some(n as int)
  {
    DecimalValue(n as nat);
    assert IsDigit(Decimal(n as nat)[0]);
  }

  // ---------- Splitting at colons ----------

  /** How a character in front changes the parts. */
  function Prepend(c: char, parts: seq<string>): seq<string>
    requires parts != []
  {
    if c == ':' then [""] + parts else [[c] + parts[0]] + parts[1..]
  }

  function Split(s: string): (parts: seq<string>)
    ensures parts != []
    ensures forall p <- parts :: ':' !in p
  {
    if s == "" then [""] else Prepend(s[0], Split(s[1..]))
  }

  function Join(parts: seq<string>): string {
    if parts == [] then "" else if |parts| == 1 then parts[0] else parts[0] + ":" + Join(parts[1..])
  }

  lemma {:induction false} JoinSplit(s: string)
    ensures Join(Split(s)) == s
  {
    if s != "" {
      JoinSplit(s[1..]);
      var rest := Split(s[1..]);
      assert Split(s)[1..] == if s[0] == ':' then rest else rest[1..];
    }
  }

  lemma PrependAppend(c: char, x: seq<string>, y: seq<string>)
    requires x != []
    ensures Prepend(c, x + y) == Prepend(c, x) + y
  {
    assert (x + y)[1..] == x[1..] + y;
  }

  lemma SplitAppend(a: string, b: string)
    ensures Split(a + ":" + b) == Split(a) + Split(b)
  {
    var s := a + ":" + b;
    if a == "" {
      assert s[1..] == b;
    } else {
      assert s[1..] == a[1..] + ":" + b;
      SplitAppend(a[1..], b);
      PrependAppend(a[0], Split(a[1..]), Split(b));
    }
  }

  lemma SplitPlain(s: string)
    requires ':' !in s
    ensures Split(s) == [s]
  {
    if s != "" {
      SplitPlain(s[1..]);
      assert s == [s[0]] + s[1..];
    }
  }

  lemma SplitPair(a: string, b: string)
    requires ':' !in a && ':' !in b
    ensures Split(a + ":" + b) == [a, b]
  {
    SplitAppend(a, b);
    SplitPlain(a);
    SplitPlain(b);
  }

  // ---------- Keys ----------

  function CacheKey(name: string, qtype: uint16, qclass: uint16): Key {
    "dns:" + name + ":" + Decimal(qtype as nat) + ":" + Decimal(qclass as nat)
  }

  function ParseCacheKey(key: Key): Option<Question> {
    if !("dns:" <= key) then None
    else
      var parts := Split(key);
      var n := |parts|;
      if n < 4 then None
      else
        var qname := Join(parts[1..n - 2]);
        var qtype := Atoi(parts[n - 2]);
        var qclass := Atoi(parts[n - 1]);
        if qname == "" || qtype.None? || qclass.None? then None
        else Some(Question(qname, ToUint16(qtype.value), ToUint16(qclass.value)))
  }

  predicate IsRootZoneCacheKey(key: Key) {
    "dns::" <= key
  }

  lemma SplitKey(name: string, t: string, c: string)
    requires ':' !in t && ':' !in c
    ensures Split("dns" + ":" + (name + ":" + (t + ":" + c))) == ["dns"] + Split(name) + [t, c]
  {
    SplitPair(t, c);
    SplitAppend(name, t + ":" + c);
    SplitAppend("dns", name + ":" + (t + ":" + c));
    SplitPlain("dns");
    assert ["dns"] + (Split(name) + [t, c]) == ["dns"] + Split(name) + [t, c];
  }

  lemma KeyParts(name: string, qtype: uint16, qclass: uint16)
    ensures Split(CacheKey(name, qtype, qclass))
         == ["dns"] + Split(name) + [Decimal(qtype as nat), Decimal(qclass as nat)]
  {
    var t, c := Decimal(qtype as nat), Decimal(qclass as nat);
    assert CacheKey(name, qtype, qclass) == "dns" + ":" + (name + ":" + (t + ":" + c));
    SplitKey(name, t, c);
  }

  lemma ParseParts(key: Key, name: string, t: string, c: string)
    requires "dns:" <= key && Split(key) == ["dns"] + Split(name) + [t, c]
    requires Atoi(t).Some? && Atoi(c).Some?
    ensures ParseCacheKey(key)
         == if name == "" then None else Some(Question(name, ToUint16(Atoi(t).value), ToUint16(Atoi(c).value)))
  {
    var parts := Split(key);
    assert parts[1..|parts| - 2] == Split(name);
    JoinSplit(name);
  }

  /** Parsing undoes printing for every non-empty name, colons included; the empty name is rejected. */
  lemma ParsePrinted(name: string, qtype: uint16, qclass: uint16)
    ensures ParseCacheKey(CacheKey(name, qtype, qclass))
         == if name == "" then None else Some(Question(name, qtype, qclass))
  {
    KeyParts(name, qtype, qclass);
    AtoiDecimal(qtype);
    AtoiDecimal(qclass);
    ParseParts(CacheKey(name, qtype, qclass), name, Decimal(qtype as nat), Decimal(qclass as nat));
  }

  /** No two questions share a key, the empty name included. */
  lemma CacheKeyInjective(n: string, t: uint16, c: uint16, n': string, t': uint16, c': uint16)
    requires CacheKey(n, t, c) == CacheKey(n', t', c')
    ensures n == n' && t == t' && c == c'
  {
    KeyParts(n, t, c);
    KeyParts(n', t', c');
    var parts := Split(CacheKey(n, t, c));
    assert parts[1..|parts| - 2] == Split(n) == Split(n');
    JoinSplit(n);
    JoinSplit(n');
    assert parts[|parts| - 2] == Decimal(t as nat) == Decimal(t' as nat);
    assert parts[|parts| - 1] == Decimal(c as nat) == Decimal(c' as nat);
    DecimalValue(t as nat);
    DecimalValue(t' as nat);
    DecimalValue(c as nat);
    DecimalValue(c' as nat);
  }

  lemma JoinAppend(a: seq<string>, b: seq<string>)
    requires a != [] && b != []
    ensures Join(a + b) == Join(a) + ":" + Join(b)
  {
    if |a| == 1 {
      assert (a + b)[1..] == b;
    } else {
      assert (a + b)[1..] == a[1..] + b;
      JoinAppend(a[1..], b);
    }
  }

  /** A key, put together from its parts. */
  lemma KeyFromParts(key: Key)
    requires "dns:" <= key && |Split(key)| >= 4
    ensures var parts := Split(key); var n := |parts|;
            key == "dns:" + Join(parts[1..n - 2]) + ":" + parts[n - 2] + ":" + parts[n - 1]
  {
    var parts := Split(key);
    var n := |parts|;
    JoinSplit(key);
    FirstPart(key);
    var mid, tail := parts[1..n - 2], parts[n - 2..];
    assert parts == [parts[0]] + (mid + tail);
    JoinAppend([parts[0]], mid + tail);
    JoinAppend(mid, tail);
    assert Join(tail) == parts[n - 2] + ":" + parts[n - 1];
  }

  /** A number under 2^16 as `%d` writes it: digits only, and no leading zero unless it is the only digit. */
  predicate Canonical(p: string) {
    && p != "" && (forall c <- p :: IsDigit(c))
    && (|p| > 1 ==> p[0] != '0')
    && Value(p) < 0x1_0000
  }

  lemma {:induction false} DigitsPositive(p: string)
    requires p != "" && (forall c <- p :: IsDigit(c)) && p[0] != '0'
    ensures Value(p) > 0
  {
    if |p| > 1 {
      DigitsPositive(p[..|p| - 1]);
    }
  }

  lemma DecimalSnoc(n: nat, c: char)
    requires IsDigit(c) && n > 0
    ensures Decimal(10 * n + DigitValue(c)) == Decimal(n) + [c]
  {
    assert (10 * n + DigitValue(c)) / 10 == n && (10 * n + DigitValue(c)) % 10 == DigitValue(c);
  }

  lemma {:induction false} DecimalOfValue(p: string)
    requires p != "" && (forall c <- p :: IsDigit(c)) && (|p| > 1 ==> p[0] != '0')
    ensures Decimal(Value(p)) == p
  {
    var init, last := p[..|p| - 1], p[|p| - 1];
    if init == "" {
      assert Value(p) == DigitValue(last) && Digit(DigitValue(last)) == last;
    } else {
      DigitsPositive(init);
      DecimalOfValue(init);
      DecimalSnoc(Value(init), last);
      assert p == init + [last];
    }
  }

  lemma DecimalHasNoLeadingZero(n: nat)
    ensures |Decimal(n)| > 1 ==> Decimal(n)[0] != '0'
  {
    if n >= 10 {
      DecimalHasNoLeadingZero(n / 10);
      DecimalValue(n / 10);
    }
  }

  /** A field that parses prints back exactly when it is canonical. */
  lemma FieldPrintsBack(p: string)
    requires Atoi(p).Some?
    ensures Decimal(ToUint16(Atoi(p).value) as nat) == p <==> Canonical(p)
  {
    var n := ToUint16(Atoi(p).value) as nat;
    if Canonical(p) {
      assert IsDigit(p[0]);
      assert n == Value(p);
      DecimalOfValue(p);
    }
    DecimalHasNoLeadingZero(n);
    DecimalValue(n);
  }

  /** Printing undoes parsing exactly for the keys whose last two fields are canonical numbers under 2^16:
      the parser also takes signs, leading zeros and larger values. */
  lemma PrintParsedIff(key: Key)
    requires ParseCacheKey(key).Some?
    ensures var q := ParseCacheKey(key).value; var parts := Split(key); var n := |parts|;
            CacheKey(q.name, q.qtype, q.qclass) == key <==> Canonical(parts[n - 2]) && Canonical(parts[n - 1])
  {
    var q := ParseCacheKey(key).value;
    var parts := Split(key);
    KeyParts(q.name, q.qtype, q.qclass);
    KeyFromParts(key);
    FieldPrintsBack(parts[|parts| - 2]);
    FieldPrintsBack(parts[|parts| - 1]);
  }

  lemma {:induction false} ZeroInFront(s: string)
    requires forall c <- s :: IsDigit(c)
    ensures Value("0" + s) == Value(s)
  {
    if s == "" {
      assert "0"[..0] == "";
    } else {
      ZeroInFront(s[..|s| - 1]);
      assert ("0" + s)[..|s|] == "0" + s[..|s| - 1];
    }
  }

  lemma AtoiWithZero(n: uint16) returns (s: string)
    ensures s == "0" + Decimal(n as nat) && |s| == 1 + |Decimal(n as nat)| && ':' !in s
    ensures Atoi(s) == Some(n as int)
  {
    s := "0" + Decimal(n as nat);
    DecimalValue(n as nat);
    ZeroInFront(Decimal(n as nat));
    assert s[0] == '0' && s[1..] == Decimal(n as nat);
  }

  /** A leading zero does not come back: for the name "a" and ones, "dns:a:01:1" is printed as "dns:a:1:1". */
  lemma LeadingZeroIsLost(name: string, qtype: uint16, qclass: uint16)
    requires name != ""
    ensures var key := "dns" + ":" + (name + ":" + ("0" + Decimal(qtype as nat) + ":" + Decimal(qclass as nat)));
            ParseCacheKey(key) == Some(Question(name, qtype, qclass)) && CacheKey(name, qtype, qclass) != key
  {
    var t := AtoiWithZero(qtype);
    var c := Decimal(qclass as nat);
    var key := "dns" + ":" + (name + ":" + (t + ":" + c));
    TypeSpelled(name, t, qclass);
    SplitKey(name, t, c);
    KeyParts(name, qtype, qclass);
    assert Split(key)[|Split(key)| - 2] == t;
  }

  ghost function Signed(sign: string, n: nat): int {
    if sign == "-" then 0 - n else n
  }

  ghost predicate Fits64(v: int) {
    -0x8000_0000_0000_0000 <= v < 0x8000_0000_0000_0000
  }

  /** What Atoi makes of a number with or without a sign: it takes 64 bits. */
  lemma AtoiSigned(sign: string, n: nat) returns (s: string)
    requires sign in {"", "+", "-"}
    ensures s == sign + Decimal(n) && ':' !in s
    ensures Atoi(s) == if Fits64(Signed(sign, n)) then Some(Signed(sign, n)) else None
  {
    s := sign + Decimal(n);
    DecimalValue(n);
    assert IsDigit(Decimal(n)[0]);
    if sign != "" {
      assert s[0] == sign[0] && s[1..] == Decimal(n);
    } else {
      assert s == Decimal(n);
    }
  }

  /** The question of a key whose type is spelled `t`. */
  lemma TypeSpelled(name: string, t: string, qclass: uint16)
    requires name != "" && ':' !in t
    ensures var key := "dns" + ":" + (name + ":" + (t + ":" + Decimal(qclass as nat)));
            ParseCacheKey(key) == if Atoi(t).None? then None
                                  else Some(Question(name, ToUint16(Atoi(t).value), qclass))
  {
    var c := Decimal(qclass as nat);
    var key := "dns" + ":" + (name + ":" + (t + ":" + c));
    AtoiDecimal(qclass);
    SplitKey(name, t, c);
    assert key[..4] == "dns:";
    if Atoi(t).Some? {
      ParseParts(key, name, t, c);
    } else {
      assert Split(key)[|Split(key)| - 2] == t;
    }
  }

  ghost predicate SameLowBits(v: int, n: uint16) {
    exists m: int :: v == 0x1_0000 * m + n as int
  }

  lemma LowBits(v: int)
    ensures SameLowBits(v, ToUint16(v))
  {
    assert v == 0x1_0000 * (v / 0x1_0000) + v % 0x1_0000;
  }

  /** Other spellings of a type parse too: signs are taken, and only the low 16 bits of a 64-bit number are kept. */
  lemma OtherSpellings(name: string, sign: string, n: nat, qclass: uint16) returns (q: Option<Question>)
    requires name != "" && sign in {"", "+", "-"}
    ensures q == ParseCacheKey("dns" + ":" + (name + ":" + ((sign + Decimal(n)) + ":" + Decimal(qclass as nat))))
    ensures q.Some? <==> Fits64(Signed(sign, n))
    ensures q.Some? ==> q.value.name == name && q.value.qclass == qclass
    ensures q.Some? ==> SameLowBits(Signed(sign, n), q.value.qtype)
  {
    var t := AtoiSigned(sign, n);
    TypeSpelled(name, t, qclass);
    q := None;
    if Atoi(t).Some? {
      var v := Atoi(t).value;
      LowBits(v);
      q := Some(Question(name, ToUint16(v), qclass));
    }
  }

  /** The key of a question, letter by letter. */
  lemma SampleKey()
    ensures CacheKey("a.b", 28, 1) == "dns:a.b:28:1"
  {
    assert Decimal(28) == Decimal(2) + [Digit(8)] == "28";
    assert Decimal(1) == "1";
  }

  lemma FirstPart(key: Key)
    requires "dns:" <= key
    ensures Split(key)[0] == "dns"
  {
    assert key == "dns" + ":" + key[4..];
    SplitAppend("dns", key[4..]);
    SplitPlain("dns");
  }

  /** The root-zone test also catches names that begin with a colon. */
  lemma RootZoneIff(name: string, qtype: uint16, qclass: uint16)
    ensures IsRootZoneCacheKey(CacheKey(name, qtype, qclass)) <==> name == "" || name[0] == ':'
  {
    var key := CacheKey(name, qtype, qclass);
    assert key[..4] == "dns:";
    assert key[4] == (name + ":" + Decimal(qtype as nat) + ":" + Decimal(qclass as nat))[0];
  }
}
