/** server/ResourceServer/src/base64.cpp.  Bit masks and shifts are written as division and remainder
    by powers of two. */
module Base64 {
  import opened Basics
  import UploadFile

  /** What decoding a malformed text throws: std::out_of_range from at(), or std::runtime_error. */
  datatype Decoded = Ok(bytes: Bytes) | OutOfRange | NotBase64

  /** `unsigned int` is 32 bits wide. */
  const WORD: nat := 0x1_0000_0000

  type Sextet = k: int | 0 <= k < 64

  /** base64_chars. */
  function Digit(k: Sextet, url: bool): char {
    if k < 26 then 'A' + k as char
    else if k < 52 then 'a' + (k - 26) as char
    else if k < 62 then '0' + (k - 52) as char
    else if k == 62 then (if url then '-' else '+')
    else (if url then '_' else '/')
  }

  /** trailing_char. */
  function Pad(url: bool): char {
    if url then '.' else '='
  }

  predicate IsPad(c: char) {
    c == '=' || c == '.'
  }

  /** pos_of_char. */
  function PosOfChar(c: char): (r: Option<Sextet>)
    ensures r.Some? ==> Digit(r.value, false) == c || Digit(r.value, true) == c
  {
    if 'A' <= c <= 'Z' then Some(c as int - 'A' as int)
    else if 'a' <= c <= 'z' then Some(c as int - 'a' as int + 26)
    else if '0' <= c <= '9' then Some(c as int - '0' as int + 52)
    else if c == '+' || c == '-' then Some(62)
    else if c == '/' || c == '_' then Some(63)
    else None
  }

  /** Tables 1 and 2 of RFC 4648. */
  const LETTERS := "ABCDEFGHIJKLMNOPQRSTUVWXYZ" + "abcdefghijklmnopqrstuvwxyz" + "0123456789"
  const STANDARD := LETTERS + "+/"
  const URL_SAFE := LETTERS + "-_"

  lemma DigitIsTheTable(k: Sextet, url: bool)
    ensures |STANDARD| == |URL_SAFE| == 64 && Digit(k, url) == if url then URL_SAFE[k] else STANDARD[k]
  {
    assert k < 62 ==> Digit(k, url) == LETTERS[k];
  }

  lemma DigitDecodes(k: Sextet, url: bool)
    ensures PosOfChar(Digit(k, url)) == Some(k) && !IsPad(Digit(k, url)) && Digit(k, url) != '\n'
  {
  }

  // ---- Encoding --------------------------------------------------------------------------------------------

  /** One to three bytes make four characters. */
  function Group(b: Bytes, url: bool): (r: string)
    requires 1 <= |b| <= 3
    ensures |r| == 4
  {
    var b1 := if |b| > 1 then b[1] else 0;
    var b2 := if |b| > 2 then b[2] else 0;
    [Digit(b[0] / 4, url),
     Digit(b[0] % 4 * 16 + b1 / 16, url),
     if |b| > 1 then Digit(b1 % 16 * 4 + b2 / 64, url) else Pad(url),
     if |b| > 2 then Digit(b2 % 64, url) else Pad(url)]
  }

  /** Section 4 of RFC 4648, with the padding character of the chosen alphabet. */
  function Encoding(b: Bytes, url: bool): (r: string) {
    if b == [] then [] else if |b| <= 3 then Group(b, url) else Group(b[..3], url) + Encoding(b[3..], url)
  }

  /** The 32-bit value of `pos` after k rounds of the loop. */
  function Pos(k: nat): nat {
    3 * k % WORD
  }

  /** The encoding loop ends if and only if the input is shorter than 2^32 bytes: for a longer one
      the 32-bit position never reaches the length. */
  lemma EncodeHaltsIff(length: nat)
    ensures (exists k :: Pos(k) >= length) <==> length < WORD
  {
    if length < WORD {
      assert Pos(1431655765) == WORD - 1;
    } else {
      forall k ensures Pos(k) < length {
      }
    }
  }

  /** Below 2^32 the 32-bit additions of the loop do not wrap around. */
  lemma NoWrap(pos: nat, length: nat)
    requires pos % 3 == 0 && pos < length < WORD
    ensures pos + 3 < WORD && Add(pos, 1) == pos + 1 && Add(pos, 2) == pos + 2 && Add(pos, 3) == pos + 3 && (pos + 3) % 3 == 0
  {
  }

  /** 32-bit addition. */
  function Add(a: nat, b: nat): nat {
    (a + b) % WORD
  }

  function From(bytes: Bytes, pos: nat): Bytes {
    if pos <= |bytes| then bytes[pos..] else []
  }

  lemma EncodingUnrolls(bytes: Bytes, pos: nat, url: bool)
    requires pos < |bytes|
    ensures Encoding(From(bytes, pos), url) == Group(bytes[pos..Min(pos + 3, |bytes|)], url) + Encoding(From(bytes, pos + 3), url)
  {
    var rest := bytes[pos..];
    if |rest| <= 3 {
      assert rest == bytes[pos..Min(pos + 3, |bytes|)];
      assert From(bytes, pos + 3) == [];
    } else {
      assert rest[..3] == bytes[pos..pos + 3];
      assert rest[3..] == bytes[pos + 3..];
    }
  }

  /** What the loop has written and what is left make up the whole encoding. */
  ghost predicate Halfway(bytes: Bytes, url: bool, pos: nat, ret: string) {
    pos < WORD && pos % 3 == 0 && ret + Encoding(From(bytes, pos), url) == Encoding(bytes, url)
  }

  lemma RoundKeepsHalfway(bytes: Bytes, url: bool, pos: nat, ret: string)
    requires Halfway(bytes, url, pos, ret) && pos < |bytes| < WORD
    ensures Halfway(bytes, url, Add(pos, 3), ret + Group(bytes[pos..Min(pos + 3, |bytes|)], url))
    ensures Add(pos, 3) == pos + 3
  {
    NoWrap(pos, |bytes|);
    EncodingUnrolls(bytes, pos, url);
    var group, rest := Group(bytes[pos..Min(pos + 3, |bytes|)], url), Encoding(From(bytes, pos + 3), url);
    assert ret + (group + rest) == (ret + group) + rest;
  }

  lemma HalfwayEnds(bytes: Bytes, url: bool, pos: nat, ret: string)
    requires Halfway(bytes, url, pos, ret) && pos >= |bytes|
    ensures ret == Encoding(bytes, url)
  {
    assert From(bytes, pos) == [];
  }

  /** base64_encode, for the inputs on which its loop ends. */
  method Encode(bytes: Bytes, url: bool) returns (ret: string)
    requires |bytes| < WORD
    ensures ret == Encoding(bytes, url)
  {
    ret := [];
    var pos := 0;
    assert Halfway(bytes, url, 0, []) by { assert From(bytes, 0) == bytes; }
    while pos < |bytes|
      invariant Halfway(bytes, url, pos, ret)
      decreases WORD - pos
    {
      NoWrap(pos, |bytes|);
      RoundKeepsHalfway(bytes, url, pos, ret);
      var group := Round(bytes, pos, url);
      ret := ret + group;
      pos := Add(pos, 3);
    }
    HalfwayEnds(bytes, url, pos, ret);
  }

  /** The body of the loop. */
  method Round(bytes: Bytes, pos: nat, url: bool) returns (group: string)
    requires pos < |bytes| && Add(pos, 1) == pos + 1 && Add(pos, 2) == pos + 2
    ensures group == Group(bytes[pos..Min(pos + 3, |bytes|)], url)
  {
    ghost var b := bytes[pos..Min(pos + 3, |bytes|)];
    assert b[0] == bytes[pos] && (|b| > 1 ==> b[1] == bytes[pos + 1]) && (|b| > 2 ==> b[2] == bytes[pos + 2]);
    group := [Digit(bytes[pos] / 4, url)];
    if Add(pos, 1) < |bytes| {
      group := group + [Digit(bytes[pos] % 4 * 16 + bytes[pos + 1] / 16, url)];
      if Add(pos, 2) < |bytes| {
        group := group + [Digit(bytes[pos + 1] % 16 * 4 + bytes[pos + 2] / 64, url),
                          Digit(bytes[pos + 2] % 64, url)];
      } else {
        group := group + [Digit(bytes[pos + 1] % 16 * 4, url), Pad(url)];
      }
    } else {
      group := group + [Digit(bytes[pos] % 4 * 16, url), Pad(url), Pad(url)];
    }
  }

  // ---- Decoding --------------------------------------------------------------------------------------------

  /** The first group of a non-empty text; at(pos + 1) is read before anything else. */
  function DecodeGroup(s: string): (r: Decoded)
    requires s != []
    ensures r.Ok? ==> 1 <= |r.bytes| <= 3
  {
    if |s| < 2 then OutOfRange
    else
      var p1 := PosOfChar(s[1]);
      var p0 := PosOfChar(s[0]);
      if p1.None? || p0.None? then NotBase64
      else
        var first := p0.value * 4 + p1.value / 16;
        if |s| <= 2 || IsPad(s[2]) then Ok([first])
        else
          var p2 := PosOfChar(s[2]);
          if p2.None? then NotBase64
          else
            var second := p1.value % 16 * 16 + p2.value / 4;
            if |s| <= 3 || IsPad(s[3]) then Ok([first, second])
            else
              var p3 := PosOfChar(s[3]);
              if p3.None? then NotBase64 else Ok([first, second, p2.value % 4 * 64 + p3.value])
  }

  function Prepend(bytes: Bytes, rest: Decoded): Decoded {
    if rest.Ok? then Ok(bytes + rest.bytes) else rest
  }

  function Decoding(s: string): Decoded {
    if s == [] then Ok([])
    else
      var group := DecodeGroup(s);
      if !group.Ok? then group else Prepend(group.bytes, Decoding(s[Min(4, |s|)..]))
  }

  /** base64_decode without line-break removal. */
  method Decode(s: string) returns (r: Decoded)
    ensures r == Decoding(s)
  {
    var ret: Bytes, pos := [], 0;
    assert Decoding(s[0..]) == Decoding(s) by { assert s[0..] == s; }
    while pos < |s|
      invariant 0 <= pos <= |s| && Decoding(s) == Prepend(ret, Decoding(s[pos..]))
    {
      var group := DecodeGroup(s[pos..]);
      DecodingUnrolls(s, pos, ret);
      if !group.Ok? {
        return group;
      }
      ret := ret + group.bytes;
      pos := Min(pos + 4, |s|);
    }
    return Ok(ret);
  }

  lemma DecodingUnrolls(s: string, pos: nat, ret: Bytes)
    requires pos < |s|
    ensures var group := DecodeGroup(s[pos..]);
            Prepend(ret, Decoding(s[pos..])) ==
              if group.Ok? then Prepend(ret + group.bytes, Decoding(s[Min(pos + 4, |s|)..])) else group
  {
    var group, rest := DecodeGroup(s[pos..]), Decoding(s[Min(pos + 4, |s|)..]);
    assert s[pos..][Min(4, |s| - pos)..] == s[Min(pos + 4, |s|)..];
    assert group.Ok? && rest.Ok? ==> ret + (group.bytes + rest.bytes) == (ret + group.bytes) + rest.bytes;
  }

  lemma DigitsDecode(s: string, url: bool, p0: Sextet, p1: Sextet, p2: Sextet, p3: Sextet)
    requires |s| >= 4 && s[0] == Digit(p0, url) && s[1] == Digit(p1, url)
    ensures IsPad(s[2]) ==> DecodeGroup(s) == Ok([p0 * 4 + p1 / 16])
    ensures s[2] == Digit(p2, url) && IsPad(s[3]) ==> DecodeGroup(s) == Ok([p0 * 4 + p1 / 16, p1 % 16 * 16 + p2 / 4])
    ensures s[2] == Digit(p2, url) && s[3] == Digit(p3, url) ==>
              DecodeGroup(s) == Ok([p0 * 4 + p1 / 16, p1 % 16 * 16 + p2 / 4, p2 % 4 * 64 + p3])
  {
    DigitDecodes(p0, url);
    DigitDecodes(p1, url);
    DigitDecodes(p2, url);
    DigitDecodes(p3, url);
  }

  lemma GroupDecodes(b: Bytes, url: bool, rest: string)
    requires 1 <= |b| <= 3
    ensures DecodeGroup(Group(b, url) + rest) == Ok(b)
  {
    var b1, b2 := if |b| > 1 then b[1] else 0, if |b| > 2 then b[2] else 0;
    Sextets(b[0], b1, b2);
    GroupHolds(Group(b, url) + rest, b, url, b[0] / 4, b[0] % 4 * 16 + b1 / 16, b1 % 16 * 4 + b2 / 64, b2 % 64);
  }

  lemma GroupHolds(s: string, b: Bytes, url: bool, p0: Sextet, p1: Sextet, p2: Sextet, p3: Sextet)
    requires 1 <= |b| <= 3 && GroupIs(s, |b|, url, p0, p1, p2, p3)
    requires p0 * 4 + p1 / 16 == b[0]
    requires |b| > 1 ==> p1 % 16 * 16 + p2 / 4 == b[1]
    requires |b| > 2 ==> p2 % 4 * 64 + p3 == b[2]
    ensures DecodeGroup(s) == Ok(b)
  {
    DigitsDecode(s, url, p0, p1, p2, p3);
    assert b == if |b| == 1 then [b[0]] else if |b| == 2 then [b[0], b[1]] else [b[0], b[1], b[2]];
  }

  /** The first four characters stand for these sextets, padded after `n` bytes. */
  predicate GroupIs(s: string, n: nat, url: bool, p0: Sextet, p1: Sextet, p2: Sextet, p3: Sextet) {
    && |s| >= 4 && s[0] == Digit(p0, url) && s[1] == Digit(p1, url)
    && s[2] == (if n > 1 then Digit(p2, url) else Pad(url)) && s[3] == (if n > 2 then Digit(p3, url) else Pad(url))
  }

  /** Four sextets hold three bytes. */
  lemma Sextets(b0: Byte, b1: Byte, b2: Byte)
    ensures var p0, p1, p2, p3 := b0 / 4, b0 % 4 * 16 + b1 / 16, b1 % 16 * 4 + b2 / 64, b2 % 64;
            p0 * 4 + p1 / 16 == b0 && p1 % 16 * 16 + p2 / 4 == b1 && p2 % 4 * 64 + p3 == b2
  {
  }

  /** Decoding gives back every byte string, in both alphabets. */
  lemma {:induction false} DecodeInvertsEncode(b: Bytes, url: bool)
    ensures Decoding(Encoding(b, url)) == Ok(b)
    decreases |b|
  {
    if b == [] {
    } else if |b| <= 3 {
      GroupDecodes(b, url, []);
      assert Group(b, url) + [] == Group(b, url);
      assert Group(b, url)[4..] == [];
      assert b + [] == b;
    } else {
      var rest := Encoding(b[3..], url);
      GroupDecodes(b[..3], url, rest);
      DecodeInvertsEncode(b[3..], url);
      assert (Group(b[..3], url) + rest)[4..] == rest;
      assert b[..3] + b[3..] == b;
    }
  }

  /** How long an encoding is, and where it is padded: one character for each byte that the last group
      lacks, at the very end; everything before is from the alphabet. */
  lemma {:induction false} EncodingShape(b: Bytes, url: bool)
    ensures var e, pads := Encoding(b, url), (3 - |b| % 3) % 3;
            && |e| == (|b| + 2) / 3 * 4
            && forall i :: 0 <= i < |e| ==> if i >= |e| - pads then e[i] == (if url then '.' else '=') else PosOfChar(e[i]).Some? && !IsPad(e[i])
    decreases |b|
  {
    if 0 < |b| <= 3 {
      GroupShape(b, url);
    } else if |b| > 3 {
      GroupShape(b[..3], url);
      EncodingShape(b[3..], url);
      OneGroupLess(|b|);
    }
  }

  lemma OneGroupLess(n: nat)
    requires n > 3
    ensures (n - 3) % 3 == n % 3 && 4 + (n - 3 + 2) / 3 * 4 == (n + 2) / 3 * 4 && (n - 3 + 2) / 3 > 0
  {
  }

  lemma GroupShape(b: Bytes, url: bool)
    requires 1 <= |b| <= 3
    ensures var g := Group(b, url);
            forall i :: 0 <= i < 4 ==> if i >= |b| + 1 then g[i] == (if url then '.' else '=') else PosOfChar(g[i]).Some? && !IsPad(g[i])
  {
    var b1, b2 := if |b| > 1 then b[1] else 0, if |b| > 2 then b[2] else 0;
    DigitDecodes(b[0] / 4, url);
    DigitDecodes(b[0] % 4 * 16 + b1 / 16, url);
    DigitDecodes(b1 % 16 * 4 + b2 / 64, url);
    DigitDecodes(b2 % 64, url);
  }

  // ---- Line breaks -----------------------------------------------------------------------------------------

  /** Lines of `width` characters, separated by line breaks. */
  function Broken(s: string, width: nat): string
    requires width > 0
  {
    if |s| <= width then s else s[..width] + ['\n'] + Broken(s[width..], width)
  }

  /** insert_linebreaks. */
  method InsertLinebreaks(s: string, width: nat) returns (str: string)
    requires width > 0
    ensures str == Broken(s, width)
  {
    str := s;
    var pos := width;
    ghost var head: string, rest := [], s;
    while pos < |str|
      invariant str == head + rest && pos == |head| + width
      invariant Broken(s, width) == head + Broken(rest, width)
      decreases |rest|
    {
      ghost var tail := Broken(rest[width..], width);
      assert head + (rest[..width] + ['\n'] + tail) == (head + rest[..width] + ['\n']) + tail;
      assert str[..pos] == head + rest[..width] && str[pos..] == rest[width..];
      str := str[..pos] + ['\n'] + str[pos..];
      head, rest := head + rest[..width] + ['\n'], rest[width..];
      pos := pos + width + 1;
    }
  }

  predicate OneLine(s: string) {
    '\n' !in s
  }

  /** Exactly every (width + 1)-th character is a line break, so no line is longer than `width` and
      every line but the last has exactly that length. */
  lemma {:induction false} BreaksAreRegular(s: string, width: nat, j: nat)
    requires width > 0 && OneLine(s) && j < |Broken(s, width)|
    ensures Broken(s, width)[j] == '\n' <==> j % (width + 1) == width
    decreases |s|
  {
    if j <= width {
      SmallRemainder(j, width + 1);
    } else {
      var k := j - width - 1;
      assert Broken(s, width)[j] == Broken(s[width..], width)[k];
      BreaksAreRegular(s[width..], width, k);
      UploadFile.AddDivisor(k, width + 1);
      assert k + (width + 1) == j;
    }
  }

  lemma SmallRemainder(n: nat, d: nat)
    requires n < d
    ensures n % d == n
  {
  }

  /** erase(remove(..., '\n')). */
  function Joined(s: string): string {
    if s == [] then [] else if s[0] == '\n' then Joined(s[1..]) else [s[0]] + Joined(s[1..])
  }

  lemma {:induction false} JoinedConcat(a: string, b: string)
    ensures Joined(a + b) == Joined(a) + Joined(b)
  {
    if a == [] {
      assert a + b == b;
    } else {
      JoinedConcat(a[1..], b);
      assert (a + b)[0] == a[0] && (a + b)[1..] == a[1..] + b;
      assert [a[0]] + (Joined(a[1..]) + Joined(b)) == ([a[0]] + Joined(a[1..])) + Joined(b);
    }
  }

  lemma {:induction false} JoinedOneLine(s: string)
    requires OneLine(s)
    ensures Joined(s) == s
  {
    if s != [] {
      JoinedOneLine(s[1..]);
    }
  }

  lemma {:induction false} JoiningUndoesBreaking(s: string, width: nat)
    requires width > 0 && OneLine(s)
    ensures Joined(Broken(s, width)) == s
    decreases |s|
  {
    if |s| <= width {
      JoinedOneLine(s);
    } else {
      var tail := Broken(s[width..], width);
      JoinedOneLine(s[..width]);
      JoiningUndoesBreaking(s[width..], width);
      JoinedConcat(s[..width] + ['\n'], tail);
      JoinedConcat(s[..width], ['\n']);
      assert Joined(['\n']) == [];
      assert s[..width] + s[width..] == s;
    }
  }

  method RemoveLinebreaks(s: string) returns (r: string)
    ensures r == Joined(s)
  {
    r := [];
    for k := 0 to |s|
      invariant r == Joined(s[..k])
    {
      assert s[..k + 1] == s[..k] + [s[k]];
      JoinedConcat(s[..k], [s[k]]);
      if s[k] != '\n' {
        r := r + [s[k]];
      }
    }
    assert s[..|s|] == s;
  }

  lemma {:induction false} EncodingIsOneLine(b: Bytes, url: bool)
    ensures OneLine(Encoding(b, url))
    decreases |b|
  {
    if |b| > 3 {
      GroupIsOneLine(b[..3], url);
      EncodingIsOneLine(b[3..], url);
    } else if b != [] {
      GroupIsOneLine(b, url);
    }
  }

  lemma GroupIsOneLine(b: Bytes, url: bool)
    requires 1 <= |b| <= 3
    ensures OneLine(Group(b, url))
  {
    forall k: Sextet ensures Digit(k, url) != '\n' {
      DigitDecodes(k, url);
    }
  }

  /** The PEM form (width 64) and the MIME form (width 76, section 6.8 of RFC 2045) decode back after
      their line breaks are removed. */
  method EncodeWithLinebreaks(bytes: Bytes, width: nat) returns (text: string)
    requires |bytes| < WORD && width > 0
    ensures text == Broken(Encoding(bytes, false), width)
    ensures Decoding(Joined(text)) == Ok(bytes)
    ensures forall j :: 0 <= j < |text| ==> (text[j] == '\n' <==> j % (width + 1) == width)
  {
    var plain := Encode(bytes, false);
    text := InsertLinebreaks(plain, width);
    EncodingIsOneLine(bytes, false);
    JoiningUndoesBreaking(plain, width);
    DecodeInvertsEncode(bytes, false);
    forall j | 0 <= j < |text| ensures text[j] == '\n' <==> j % (width + 1) == width {
      BreaksAreRegular(plain, width, j);
    }
  }
}
