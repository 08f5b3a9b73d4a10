/** The bytes of an index record, as _db_writeidx of apue/db/db.c writes them and _db_readidx reads them. */
module DbCodec {
  import opened DbFiles

  // ----- Numbers -----

  function DigitChar(d: nat): char
    requires d < 10
  {
    '0' + d as char
  }

  predicate IsDigit(c: char) {
    '0' <= c <= '9'
  }

  /** What %lld prints. */
  function Decimal(n: nat): (s: string)
    ensures |s| == Digits(n) && forall i :: 0 <= i < |s| ==> IsDigit(s[i])
  {
    if n < 10 then [DigitChar(n)] else Decimal(n / 10) + [DigitChar(n % 10)]
  }

  /** What %*lld prints: blanks in front up to the width. */
  function Padded(s: string, width: nat): string
    decreases width - |s|
  {
    if |s| >= width then s else Padded([' '] + s, width)
  }

  function Skip(s: string): string {
    if s != "" && s[0] == ' ' then Skip(s[1..]) else s
  }

  function DigitRun(s: string): (n: nat)
    ensures n <= |s|
  {
    if s != "" && IsDigit(s[0]) then 1 + DigitRun(s[1..]) else 0
  }

  function ValueOf(s: string): nat {
    if s == "" then 0 else ValueOf(s[..|s| - 1]) * 10 + (if IsDigit(s[|s| - 1]) then (s[|s| - 1] - '0') as nat else 0)
  }

  /** atol, without signs. */
  function Atol(s: string): nat {
    var t := Skip(s);
    ValueOf(t[..DigitRun(t)])
  }

  lemma {:induction false} AllDigits(s: string)
    requires forall i :: 0 <= i < |s| ==> IsDigit(s[i])
    ensures DigitRun(s) == |s|
  {
    if s != "" { AllDigits(s[1..]); }
  }

  lemma {:induction false} ValueOfDecimal(n: nat)
    ensures ValueOf(Decimal(n)) == n
  {
    var s := Decimal(n);
    if n >= 10 {
      ValueOfDecimal(n / 10);
      assert s[..|s| - 1] == Decimal(n / 10);
    } else {
      assert s[..0] == "";
    }
  }

  lemma {:induction false} SkipPadding(s: string, width: nat)
    requires s != "" && s[0] != ' '
    ensures Skip(Padded(s, width)) == s
    ensures |s| <= width ==> |Padded(s, width)| == width
  {
    PaddingSkips(s, s, width);
  }

  lemma {:induction false} PaddingSkips(t: string, s: string, width: nat)
    requires s != "" && s[0] != ' ' && Skip(t) == s && |s| <= |t|
    ensures Skip(Padded(t, width)) == s && (|t| <= width ==> |Padded(t, width)| == width)
    decreases width - |t|
  {
    if |t| < width {
      assert ([' '] + t)[1..] == t;
      PaddingSkips([' '] + t, s, width);
    }
  }

  /** Reading back a number that was printed in a field of the given width. */
  lemma {:induction false} NumberRoundTrip(n: nat, width: nat)
    ensures Atol(Padded(Decimal(n), width)) == n && Atol(Decimal(n)) == n
    ensures Digits(n) <= width ==> |Padded(Decimal(n), width)| == width
  {
    var s := Decimal(n);
    AllDigits(s);
    ValueOfDecimal(n);
    SkipPadding(s, width);
    assert s[..|s|] == s;
  }

  // ----- Records -----

  /** The part after the pointer and the length. */
  function Body(r: IdxRec): string {
    r.key + ":" + Decimal(r.datoff) + ":" + Decimal(r.datlen) + "\n"
  }

  function Encode(r: IdxRec): string {
    Padded(Decimal(r.ptr), PTR_SZ) + Padded(Decimal(|Body(r)|), IDXLEN_SZ) + Body(r)
  }

  datatype Result = Record(rec: IdxRec) | Invalid

  /** strchr(s, SEP) as an index; |s| if there is none. */
  function Separator(s: string): (k: nat)
    ensures k <= |s|
  {
    if s == "" || s[0] == ':' then 0 else 1 + Separator(s[1..])
  }

  /** _db_readidx on the bytes from the offset of the record on; Invalid stands for err_dump. */
  function Decode(bytes: string): Result {
    if |bytes| < PTR_SZ + IDXLEN_SZ then Invalid
    else
      var ptr, len := Atol(bytes[..PTR_SZ]), Atol(bytes[PTR_SZ..PTR_SZ + IDXLEN_SZ]);
      if len < IDXLEN_MIN || len > IDXLEN_MAX || |bytes| < PTR_SZ + IDXLEN_SZ + len then Invalid
      else DecodeBody(ptr, len, bytes[PTR_SZ + IDXLEN_SZ..PTR_SZ + IDXLEN_SZ + len])
  }

  function DecodeBody(ptr: nat, len: nat, body: string): Result {
    if body == "" || body[|body| - 1] != '\n' then Invalid
    else
      var s := body[..|body| - 1];
      var i := Separator(s);
      if i == |s| then Invalid
      else
        var s1 := s[i + 1..];
        var j := Separator(s1);
        if j == |s1| then Invalid
        else
          var s2 := s1[j + 1..];
          var datlen := Atol(s2);
          if Separator(s2) != |s2| || datlen <= 0 || datlen > DATLEN_MAX then Invalid
          else Record(IdxRec(ptr, len, s[..i], Atol(s1[..j]), datlen))
  }

  lemma {:induction false} SeparatorAfter(s: string, t: string)
    requires NoSeparator(s)
    ensures Separator(s + ":" + t) == |s| && Separator(s) == |s|
  {
    if s == "" {
      assert s + ":" + t == ":" + t;
    } else {
      assert (s + ":" + t)[1..] == s[1..] + ":" + t && (s + ":" + t)[0] == s[0];
      SeparatorAfter(s[1..], t);
    }
  }

  /** A body is cut at its separators as it was put together. */
  lemma {:induction false} BodyParts(key: string, a: string, b: string)
    requires NoSeparator(key) && NoSeparator(a) && NoSeparator(b)
    ensures var body := key + ":" + a + ":" + b + "\n";
      var s := body[..|body| - 1];
      body[|body| - 1] == '\n' && Separator(s) == |key| < |s| && s[..|key|] == key &&
      var s1 := s[|key| + 1..];
      Separator(s1) == |a| < |s1| && s1[..|a|] == a && s1[|a| + 1..] == b && Separator(b) == |b|
  {
    var body := key + ":" + a + ":" + b + "\n";
    var s := body[..|body| - 1];
    assert s == key + ":" + (a + ":" + b);
    SeparatorAfter(key, a + ":" + b);
    assert s[|key| + 1..] == a + ":" + b;
    SeparatorAfter(a, b);
    SeparatorAfter(b, "");
  }

  lemma {:induction false} DecimalPlain(n: nat)
    ensures NoSeparator(Decimal(n))
  {
    var s := Decimal(n);
    forall i | 0 <= i < |s| ensures s[i] != ':' { assert IsDigit(s[i]); }
  }

  lemma {:induction false} BodyRoundTrip(r: IdxRec)
    requires NoSeparator(r.key) && 0 < r.datlen <= DATLEN_MAX
    ensures DecodeBody(r.ptr, r.len, Body(r)) == Record(r)
  {
    DecimalPlain(r.datoff);
    DecimalPlain(r.datlen);
    BodyParts(r.key, Decimal(r.datoff), Decimal(r.datlen));
    NumberRoundTrip(r.datoff, 1);
    NumberRoundTrip(r.datlen, 1);
  }

  lemma {:induction false} BodyLength(r: IdxRec)
    ensures |Body(r)| == Len(|r.key|, r.datoff, r.datlen)
  {
  }

  /** The three parts of a record are found where they were written. */
  lemma {:induction false} EncodedParts(r: IdxRec, rest: string)
    requires r.ptr <= PTR_MAX && r.len == Len(|r.key|, r.datoff, r.datlen) && IDXLEN_MIN <= r.len <= IDXLEN_MAX
    ensures |Encode(r)| == Size(r) && Decode(Encode(r) + rest) == DecodeBody(r.ptr, r.len, Body(r))
  {
    BodyLength(r);
    FieldWidths(r.ptr, r.len);
    NumberRoundTrip(r.ptr, PTR_SZ);
    NumberRoundTrip(r.len, IDXLEN_SZ);
    var p, l, body := Padded(Decimal(r.ptr), PTR_SZ), Padded(Decimal(r.len), IDXLEN_SZ), Body(r);
    var bytes := p + l + body + rest;
    assert bytes[..PTR_SZ] == p && bytes[PTR_SZ..PTR_SZ + IDXLEN_SZ] == l;
    assert bytes[PTR_SZ + IDXLEN_SZ..PTR_SZ + IDXLEN_SZ + r.len] == body;
  }

  /** What was written is read back, whatever follows it in the file, and it takes Size(r) bytes. */
  lemma {:induction false} RecordRoundTrip(r: IdxRec, rest: string)
    requires NoSeparator(r.key) && r.ptr <= PTR_MAX && 0 < r.datlen <= DATLEN_MAX
    requires r.len == Len(|r.key|, r.datoff, r.datlen) && IDXLEN_MIN <= r.len <= IDXLEN_MAX
    ensures Decode(Encode(r) + rest) == Record(r) && |Encode(r)| == Size(r)
  {
    EncodedParts(r, rest);
    BodyRoundTrip(r);
  }

  lemma {:induction false} FirstSeparator(s: string, c: nat)
    requires c < |s| && s[c] == ':'
    ensures Separator(s) <= c
  {
    if c > 0 && s[0] != ':' { FirstSeparator(s[1..], c - 1); }
  }

  /** Behind the first separator of a string, a later one is still there. */
  lemma {:induction false} AfterCut(s: string, c: nat, k: nat) returns (t: string, j: nat)
    requires c < k < |s| && s[c] == s[k] == ':'
    ensures Separator(s) < |s| && t == s[Separator(s) + 1..] && j < |t| && t[j] == ':' && Separator(s) + 1 + j == k
  {
    FirstSeparator(s, c);
    t, j := s[Separator(s) + 1..], k - Separator(s) - 1;
  }

  /** A string with three separators still has one after it has been cut twice. */
  lemma {:induction false} CutTwice(ptr: nat, len: nat, s: string, c: nat, k: nat, e: nat)
    requires c < k < e < |s| && s[c] == s[k] == s[e] == ':'
    ensures DecodeBody(ptr, len, s + "\n") == Invalid
  {
    var s1, k1 := AfterCut(s, c, k);
    var t1, e1 := AfterCut(s, c, e);
    var s2, e2 := AfterCut(s1, k1, e1);
    FirstSeparator(s2, e2);
    TooMany(ptr, len, s, s1, s2);
  }

  lemma {:induction false} TooMany(ptr: nat, len: nat, s: string, s1: string, s2: string)
    requires Separator(s) < |s| && s1 == s[Separator(s) + 1..] && Separator(s1) < |s1| && s2 == s1[Separator(s1) + 1..]
    requires Separator(s2) < |s2|
    ensures DecodeBody(ptr, len, s + "\n") == Invalid
  {
    var body := s + "\n";
    assert body[..|body| - 1] == s;
  }

  lemma {:induction false} ThreeSeparators(key: string, a: string, b: string, c: nat)
    requires c < |key| && key[c] == ':'
    ensures var s := key + ":" + a + ":" + b; |s| > |key| + 1 + |a| && s[c] == s[|key|] == s[|key| + 1 + |a|] == ':'
  {
  }

  /** A key with a separator in it is cut too early, and one separator too many is left. */
  lemma {:induction false} SeparatorInKey(r: IdxRec)
    requires !NoSeparator(r.key)
    ensures DecodeBody(r.ptr, r.len, Body(r)) == Invalid
  {
    var c :| 0 <= c < |r.key| && r.key[c] == ':';
    var a, b := Decimal(r.datoff), Decimal(r.datlen);
    ThreeSeparators(r.key, a, b, c);
    CutTwice(r.ptr, r.len, r.key + ":" + a + ":" + b, c, |r.key|, |r.key| + 1 + |a|);
  }

  /** Within the limits of the fields, exactly the records whose keys have no separator are read back; the others end
      the process that reads them. */
  lemma {:induction false} ReadBackExactly(r: IdxRec, rest: string)
    requires r.ptr <= PTR_MAX && 0 < r.datlen <= DATLEN_MAX
    requires r.len == Len(|r.key|, r.datoff, r.datlen) && IDXLEN_MIN <= r.len <= IDXLEN_MAX
    ensures Decode(Encode(r) + rest) == if NoSeparator(r.key) then Record(r) else Invalid
  {
    if NoSeparator(r.key) {
      RecordRoundTrip(r, rest);
    } else {
      EncodedParts(r, rest);
      SeparatorInKey(r);
    }
  }

  lemma {:induction false} DigitsOf(n: nat, k: nat)
    requires k >= 1 && n < Power10(k)
    ensures Digits(n) <= k
  {
    if n >= 10 {
      assert k >= 2;
      DigitsOf(n / 10, k - 1);
    }
  }

  function Power10(k: nat): nat {
    if k == 0 then 1 else 10 * Power10(k - 1)
  }

  /** Pointers and lengths within the limits fit their fields. */
  lemma FieldWidths(ptr: nat, len: nat)
    requires ptr <= PTR_MAX && len <= IDXLEN_MAX
    ensures Digits(ptr) <= PTR_SZ && Digits(len) <= IDXLEN_SZ
  {
    assert Power10(4) == 10000;
    assert Power10(7) == 1000 * Power10(4);
    DigitsOf(ptr, PTR_SZ);
    DigitsOf(len, IDXLEN_SZ);
  }

  // ----- The written form -----

  /** What a string of decimal digits stands for: every digit times its power of ten. */
  ghost function Positional(s: string): int {
    if s == "" then 0 else (s[0] as int - '0' as int) * Power10(|s| - 1) + Positional(s[1..])
  }

  /** A number in digits, without a leading zero. */
  ghost predicate Numeral(s: string, n: int) {
    s != "" && (forall i :: 0 <= i < |s| ==> '0' <= s[i] <= '9') && (|s| > 1 ==> s[0] != '0') && Positional(s) == n
  }

  /** A number in a field of the given width, with spaces in front. */
  ghost predicate Field(s: string, width: nat, n: int) {
    |s| == width &&
    exists k :: 0 <= k < |s| && Numeral(s[k..], n) && forall i :: 0 <= i < k ==> s[i] == ' '
  }

  /** An index record as bytes: pointer in seven, length in four, key, offset and length of the data, newline. */
  ghost predicate Written(bytes: string, r: IdxRec, p: string, l: string, off: string, len: string) {
    bytes == p + l + r.key + ":" + off + ":" + len + "\n" && Field(p, 7, r.ptr) && Field(l, 4, r.len) &&
    Numeral(off, r.datoff) && Numeral(len, r.datlen)
  }

  lemma {:induction false} PositionalEnd(s: string, c: char)
    ensures Positional(s + [c]) == Positional(s) * 10 + (c as int - '0' as int)
  {
    var t := s + [c];
    if s == "" {
      assert t[1..] == "" && Power10(0) == 1;
    } else {
      assert t[1..] == s[1..] + [c] && t[0] == s[0];
      PositionalEnd(s[1..], c);
      ShiftedDigit(s[0] as int - '0' as int, Power10(|s| - 1), Positional(s[1..]), c as int - '0' as int);
    }
  }

  lemma ShiftedDigit(d: int, power: int, rest: int, last: int)
    ensures d * (10 * power) + (rest * 10 + last) == (d * power + rest) * 10 + last
  {
  }

  lemma {:induction false} DecimalNumeral(n: nat)
    ensures Numeral(Decimal(n), n) && (Decimal(n)[0] == '0' <==> n == 0)
  {
    var s := Decimal(n);
    if n < 10 {
      assert s[1..] == "" && Power10(0) == 1;
    } else {
      var front := Decimal(n / 10);
      DecimalNumeral(n / 10);
      PositionalEnd(front, DigitChar(n % 10));
      assert s[0] == front[0];
    }
  }

  /** A number has only one numeral. */
  lemma {:induction false} OneNumeral(s: string, n: int)
    requires Numeral(s, n)
    ensures n >= 0 && s == Decimal(n) && (s[0] == '0' ==> n == 0)
  {
    var k := |s| - 1;
    var front, c := s[..k], s[k];
    assert s == front + [c];
    PositionalEnd(front, c);
    if k == 0 {
      assert front == "" && Positional("") == 0;
    } else {
      assert front[0] == s[0];
      OneNumeral(front, Positional(front));
    }
  }

  /** A field holds its number padded. */
  lemma {:induction false} OneField(s: string, width: nat, n: int)
    requires Field(s, width, n)
    ensures n >= 0 && s == Padded(Decimal(n), width)
  {
    var k :| 0 <= k < |s| && Numeral(s[k..], n) && forall i :: 0 <= i < k ==> s[i] == ' ';
    OneNumeral(s[k..], n);
    PaddedFrom(s, k);
  }

  lemma {:induction false} PaddedFrom(s: string, k: nat)
    requires k <= |s| && forall i :: 0 <= i < k ==> s[i] == ' '
    ensures Padded(s[k..], |s|) == s
  {
    if k == 0 {
      assert s[0..] == s;
    } else {
      assert [' '] + s[k..] == s[k - 1..];
      PaddedFrom(s, k - 1);
    }
  }

  lemma {:induction false} PaddedIsField(s: string, n: int, width: nat)
    requires Numeral(s, n) && |s| <= width
    ensures Field(Padded(s, width), width, n)
  {
    PaddedField(s, s, n, width, 0);
  }

  lemma {:induction false} PaddedField(s: string, t: string, n: int, width: nat, k: nat)
    requires Numeral(s, n) && |t| <= width && k <= |t| && t[k..] == s && forall i :: 0 <= i < k ==> t[i] == ' '
    ensures Field(Padded(t, width), width, n)
    decreases width - |t|
  {
    if |t| < width {
      var u := [' '] + t;
      assert u[k + 1..] == s;
      PaddedField(s, u, n, width, k + 1);
    }
  }

  /** The bytes of a record have exactly the written form. */
  lemma {:induction false} EncodeForm(r: IdxRec)
    requires r.ptr <= PTR_MAX && r.len == Len(|r.key|, r.datoff, r.datlen) <= IDXLEN_MAX
    ensures exists p, l, off, len :: Written(Encode(r), r, p, l, off, len)
  {
    BodyLength(r);
    FieldWidths(r.ptr, r.len);
    DecimalNumeral(r.ptr);
    DecimalNumeral(r.len);
    DecimalNumeral(r.datoff);
    DecimalNumeral(r.datlen);
    PaddedIsField(Decimal(r.ptr), r.ptr, 7);
    PaddedIsField(Decimal(r.len), r.len, 4);
    var p, l, off, len := Padded(Decimal(r.ptr), 7), Padded(Decimal(r.len), 4), Decimal(r.datoff), Decimal(r.datlen);
    FormJoined(p, l, r.key, off, len);
    assert Written(Encode(r), r, p, l, off, len);
  }

  lemma FormJoined(p: string, l: string, key: string, off: string, len: string)
    ensures p + l + (key + ":" + off + ":" + len + "\n") == p + l + key + ":" + off + ":" + len + "\n"
  {
  }

  /** Bytes of the written form are those of the record, and are read as the record, whatever follows. */
  lemma {:induction false} DecodeForm(bytes: string, r: IdxRec, p: string, l: string, off: string, len: string,
      rest: string)
    requires Written(bytes, r, p, l, off, len) && NoSeparator(r.key) && r.ptr <= PTR_MAX && 0 < r.datlen <= DATLEN_MAX
    requires r.len == |bytes| - 11 && IDXLEN_MIN <= r.len <= IDXLEN_MAX
    ensures bytes == Encode(r) && Decode(bytes + rest) == Record(r)
  {
    OneField(p, 7, r.ptr);
    OneField(l, 4, r.len);
    OneNumeral(off, r.datoff);
    OneNumeral(len, r.datlen);
    FormJoined(p, l, r.key, off, len);
    BodyLength(r);
    assert |Body(r)| == r.len;
    RecordRoundTrip(r, rest);
  }

  lemma {:induction false} SeparatorIs(s: string)
    ensures NoSeparator(s[..Separator(s)]) && (Separator(s) < |s| ==> s[Separator(s)] == ':')
  {
    if s != "" && s[0] != ':' {
      SeparatorIs(s[1..]);
      var k := Separator(s[1..]);
      forall i | 0 <= i < k + 1 ensures s[i] != ':' { assert i > 0 ==> s[i] == s[1..][..k][i - 1]; }
    }
  }

  /** What is read without ending the process: the lengths are within the limits, the newline is in its place, and there
      are exactly two separators, behind the key and between two numbers. */
  lemma {:induction false} OnlyRecordsRead(bytes: string, r: IdxRec) returns (off: string, len: string)
    requires Decode(bytes) == Record(r)
    ensures IDXLEN_MIN <= r.len <= IDXLEN_MAX && 0 < r.datlen <= DATLEN_MAX && 11 + r.len <= |bytes|
    ensures bytes[11..11 + r.len] == r.key + ":" + off + ":" + len + "\n"
    ensures NoSeparator(r.key) && NoSeparator(off) && NoSeparator(len)
  {
    var body := bytes[11..11 + r.len];
    var s := body[..|body| - 1];
    SeparatorIs(s);
    var i := Separator(s);
    var s1 := s[i + 1..];
    SeparatorIs(s1);
    var j := Separator(s1);
    off, len := s1[..j], s1[j + 1..];
    SeparatorIs(len);
    assert len[..|len|] == len;
    TwoCuts(body, s, i, s1, j);
  }

  lemma {:induction false} TwoCuts(body: string, s: string, i: nat, s1: string, j: nat)
    requires body != "" && s == body[..|body| - 1] && body[|body| - 1] == '\n'
    requires i < |s| && s[i] == ':' && s1 == s[i + 1..] && j < |s1| && s1[j] == ':'
    ensures body == s[..i] + ":" + s1[..j] + ":" + s1[j + 1..] + "\n"
  {
    assert s1 == s1[..j] + ":" + s1[j + 1..];
    assert s == s[..i] + ":" + s1;
  }
}
