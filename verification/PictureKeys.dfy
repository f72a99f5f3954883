/** How AVOutputTV names a stored picture-quality value: the index/name tables, the storage key and the value text. */
module PictureKeys {
  import opened Wrappers

  // ------------------------------------------------------- index and name tables

  /** A std::map from names to indices, in key order. */
  type Table = seq<(string, int)>

  function IndexOf(t: Table, name: string): int {
    if |t| == 0 then -1 else if t[0].0 == name then t[0].1 else IndexOf(t[1..], name)
  }

  /** The first name with that index, the empty string if there is none. */
  function NameOf(t: Table, index: int): string {
    if |t| == 0 then "" else if t[0].1 == index then t[0].0 else NameOf(t[1..], index)
  }

  /** The loop of getPictureModeIndex, getSourceIndex and getFormatIndex. */
  method FindIndex(t: Table, name: string) returns (index: int)
    ensures index == IndexOf(t, name)
  {
    index := -1;
    for i := 0 to |t|
      invariant index == -1 && IndexOf(t, name) == IndexOf(t[i..], name)
    {
      if t[i].0 == name {
        index := t[i].1;
        return;
      }
      assert t[i..][1..] == t[i + 1..];
    }
  }

  predicate DotFree(s: string) {
    '.' !in s
  }

  /** Distinct usable names with distinct indices that are not the error value -1. */
  ghost predicate GoodTable(t: Table) {
    && (forall i :: 0 <= i < |t| ==> t[i].0 != "" && DotFree(t[i].0) && t[i].1 >= 0)
    && (forall i, j :: 0 <= i < j < |t| ==> t[i].0 != t[j].0 && t[i].1 != t[j].1)
  }

  /** An index the table can produce: a known one, or -1 for an unknown name. */
  ghost predicate Produced(t: Table, index: int) {
    index == -1 || exists i :: 0 <= i < |t| && t[i].1 == index
  }

  lemma {:induction false} TableLookup(t: Table, i: nat)
    requires GoodTable(t) && i < |t|
    ensures IndexOf(t, t[i].0) == t[i].1 && NameOf(t, t[i].1) == t[i].0
  {
    if i > 0 {
      assert t[0].0 != t[i].0 && t[0].1 != t[i].1;
      forall j | 0 <= j < |t[1..]| ensures t[1..][j] == t[j + 1] {
      }
      TableLookup(t[1..], i - 1);
    }
  }

  lemma {:induction false} IndexProduced(t: Table, name: string)
    ensures Produced(t, IndexOf(t, name))
  {
    if |t| > 0 && t[0].0 != name {
      IndexProduced(t[1..], name);
      if IndexOf(t[1..], name) != -1 {
        var i :| 0 <= i < |t[1..]| && t[1..][i].1 == IndexOf(t[1..], name);
        assert t[i + 1].1 == IndexOf(t, name);
      }
    }
  }

  lemma {:induction false} UnknownHasNoName(t: Table)
    requires GoodTable(t)
    ensures NameOf(t, -1) == ""
  {
    if |t| > 0 {
      forall j | 0 <= j < |t[1..]| ensures t[1..][j] == t[j + 1] {
      }
      UnknownHasNoName(t[1..]);
    }
  }

  /** On the indices a table can produce, the name is dot-free and determines the index. */
  lemma NameDeterminesIndex(t: Table, a: int, b: int)
    requires GoodTable(t) && Produced(t, a) && Produced(t, b)
    ensures DotFree(NameOf(t, a))
    ensures NameOf(t, a) == NameOf(t, b) ==> a == b
  {
    UnknownHasNoName(t);
    if a != -1 {
      var i :| 0 <= i < |t| && t[i].1 == a;
      TableLookup(t, i);
    }
    if b != -1 {
      var j :| 0 <= j < |t| && t[j].1 == b;
      TableLookup(t, j);
    }
  }

  // ------------------------------------------------------- storage keys

  const PREFIX := "Device.DeviceInfo.X_RDKCENTRAL-COM_RFC.AVOutput."

  function KeyOf(source: string, pqmode: string, format: string, param: string): string {
    PREFIX + ("Source." + source + "." + ("PicMode." + pqmode + "." + ("Format." + format + "." + param)))
  }

  /** A dot-free field followed by a dot can be read back from the front of a text. */
  lemma {:induction false} FieldsEqual(a: string, b: string, x: string, y: string)
    requires DotFree(a) && DotFree(b) && a + "." + x == b + "." + y
    ensures a == b && x == y
  {
    var s, t := a + "." + x, b + "." + y;
    assert s[|a|] == '.' && t[|b|] == '.';
    forall i | 0 <= i < |a| ensures s[i] != '.' {
      assert s[i] == a[i] && a[i] in a;
    }
    forall i | 0 <= i < |b| ensures t[i] != '.' {
      assert t[i] == b[i] && b[i] in b;
    }
    assert |a| == |b|;
    assert a == s[..|a|] == t[..|b|] == b;
    assert x == s[|a| + 1..] == t[|b| + 1..] == y;
  }

  lemma LabelsEqual(tag: string, a: string, b: string, x: string, y: string)
    requires DotFree(a) && DotFree(b)
    requires tag + a + "." + x == tag + b + "." + y
    ensures a == b && x == y
  {
    var s, t := a + "." + x, b + "." + y;
    assert tag + a + "." + x == tag + s && tag + b + "." + y == tag + t;
    assert s == (tag + s)[|tag|..] && t == (tag + t)[|tag|..];
    FieldsEqual(a, b, x, y);
  }

  /** Keys are injective in the three dot-free names and the parameter. */
  lemma KeysDistinct(s1: string, m1: string, f1: string, p1: string, s2: string, m2: string, f2: string, p2: string)
    requires DotFree(s1) && DotFree(m1) && DotFree(f1) && DotFree(s2) && DotFree(m2) && DotFree(f2)
    requires KeyOf(s1, m1, f1, p1) == KeyOf(s2, m2, f2, p2)
    ensures s1 == s2 && m1 == m2 && f1 == f2 && p1 == p2
  {
    var x1 := "PicMode." + m1 + "." + ("Format." + f1 + "." + p1);
    var x2 := "PicMode." + m2 + "." + ("Format." + f2 + "." + p2);
    var k1, k2 := "Source." + s1 + "." + x1, "Source." + s2 + "." + x2;
    assert k1 == KeyOf(s1, m1, f1, p1)[|PREFIX|..] && k2 == KeyOf(s2, m2, f2, p2)[|PREFIX|..];
    LabelsEqual("Source.", s1, s2, x1, x2);
    LabelsEqual("PicMode.", m1, m2, "Format." + f1 + "." + p1, "Format." + f2 + "." + p2);
    LabelsEqual("Format.", f1, f2, p1, p2);
  }

  // ------------------------------------------------------- value texts

  /** The enumerators of the TV HAL, whose header is not part of this model; only their distinctness matters. */
  datatype Enums = Enums(standard: int, warm: int, cold: int, user: int, fixed: int, local: int, global: int,
                         dark: int, bright: int, game: int)

  predicate Distinct(e: Enums) {
    && e.standard != e.warm && e.standard != e.cold && e.standard != e.user
    && e.warm != e.cold && e.warm != e.user && e.cold != e.user
    && e.fixed != e.local && e.fixed != e.global && e.local != e.global
    && e.dark != e.bright && e.dark != e.game && e.bright != e.game
  }

  /** The range of a 32-bit int. */
  predicate IsInt(n: int) {
    -0x8000_0000 <= n <= 0x7fff_ffff
  }

  /** The values a parameter can be set to. */
  predicate Settable(e: Enums, param: string, value: int) {
    if param == "ColorTemp" then value == e.standard || value == e.warm || value == e.cold || value == e.user
    else if param == "DimmingMode" then value == e.fixed || value == e.local || value == e.global
    else if param == "DolbyVisionMode" then value == e.dark || value == e.bright || value == e.game
    else IsInt(value)
  }

  function DigitChar(d: nat): char
    requires d < 10
  {
    "0123456789"[d]
  }

  function DigitValue(c: char): Option<nat> {
    if '0' <= c <= '9' then Some((c - '0') as nat) else None
  }

  function NatText(n: nat): string {
    if n < 10 then [DigitChar(n)] else NatText(n / 10) + [DigitChar(n % 10)]
  }

  /** std::to_string. */
  function IntText(n: int): string {
    if n < 0 then "-" + NatText(-n) else NatText(n)
  }

  /** The longest run of digits at the front of s, read after acc. */
  function ReadNat(acc: nat, s: string): nat
    decreases |s|
  {
    if |s| > 0 && DigitValue(s[0]).Some? then ReadNat(10 * acc + DigitValue(s[0]).value, s[1..]) else acc
  }

  predicate IsSpace(c: char) {
    c == ' ' || '\t' as int <= c as int <= '\r' as int
  }

  /** The text from the first character that is not white space. */
  function Stripped(s: string): (t: string)
    ensures t == "" || !IsSpace(t[0])
  {
    if |s| > 0 && IsSpace(s[0]) then Stripped(s[1..]) else s
  }

  /** std::stoi: white space, an optional sign, digits, and whatever follows.  None is an exception: no digits, or a
      number that is not an int. */
  function ReadInt(s: string): Option<int> {
    var t := Stripped(s);
    var signed := |t| > 0 && (t[0] == '-' || t[0] == '+');
    var digits := if signed then t[1..] else t;
    if digits == "" || DigitValue(digits[0]).None? then None
    else
      var n := if signed && t[0] == '-' then -(ReadNat(0, digits) as int) else ReadNat(0, digits);
      if IsInt(n) then Some(n) else None
  }

  lemma {:induction false} ReadNatSnoc(acc: nat, s: string, d: nat)
    requires d < 10 && forall c :: c in s ==> DigitValue(c).Some?
    ensures ReadNat(acc, s + [DigitChar(d)]) == 10 * ReadNat(acc, s) + d
    decreases |s|
  {
    var all := s + [DigitChar(d)];
    if |s| == 0 {
      assert all[1..] == "";
    } else {
      assert s[0] in s && all[0] == s[0] && all[1..] == s[1..] + [DigitChar(d)];
      ReadNatSnoc(10 * acc + DigitValue(s[0]).value, s[1..], d);
    }
  }

  lemma {:induction false} NatTextReads(n: nat)
    ensures forall c :: c in NatText(n) ==> DigitValue(c).Some?
    ensures ReadNat(0, NatText(n)) == n
    ensures |NatText(n)| > 0
  {
    if n < 10 {
      ReadNatSnoc(0, "", n);
      assert "" + [DigitChar(n)] == [DigitChar(n)];
    } else {
      NatTextReads(n / 10);
      ReadNatSnoc(0, NatText(n / 10), n % 10);
    }
  }

  lemma IntTextReads(n: int)
    requires IsInt(n)
    ensures ReadInt(IntText(n)) == Some(n)
  {
    var text, digits := IntText(n), if n < 0 then NatText(-n) else NatText(n);
    NatTextReads(if n < 0 then -n else n);
    assert digits[0] in digits;
    assert Stripped(text) == text;
    assert n < 0 ==> text[1..] == digits;
  }

  lemma {:induction false} StrippedConcat(white: string, t: string)
    requires (forall c :: c in white ==> IsSpace(c)) && (t == "" || !IsSpace(t[0]))
    ensures Stripped(white + t) == t
  {
    if white == "" {
      assert white + t == t;
    } else {
      assert white[0] in white && (white + t)[0] == white[0] && (white + t)[1..] == white[1..] + t;
      StrippedConcat(white[1..], t);
    }
  }

  lemma {:induction false} ReadNatStops(acc: nat, digits: string, rest: string)
    requires forall c :: c in digits ==> DigitValue(c).Some?
    requires rest == "" || DigitValue(rest[0]).None?
    ensures ReadNat(acc, digits + rest) == ReadNat(acc, digits)
    decreases |digits|
  {
    if digits == "" {
      assert digits + rest == rest;
    } else {
      assert digits[0] in digits && (digits + rest)[0] == digits[0] && (digits + rest)[1..] == digits[1..] + rest;
      ReadNatStops(10 * acc + DigitValue(digits[0]).value, digits[1..], rest);
    }
  }

  predicate IsSign(sign: string) {
    sign == "" || sign == "+" || sign == "-"
  }

  /** White space, a sign, the digits of n and anything that does not go on with a digit: stoi reads n or -n, and throws
      exactly when that is not an int. */
  lemma StoiReads(white: string, sign: string, n: nat, rest: string)
    requires (forall c :: c in white ==> IsSpace(c)) && IsSign(sign)
    requires rest == "" || DigitValue(rest[0]).None?
    ensures var v: int := if sign == "-" then -(n as int) else n;
      ReadInt(white + (sign + (NatText(n) + rest))) == if IsInt(v) then Some(v) else None
  {
    var digits := NatText(n);
    var t := sign + (digits + rest);
    NatTextReads(n);
    assert digits[0] in digits && (digits + rest)[0] == digits[0];
    assert t[0] == if sign == "" then digits[0] else sign[0];
    StrippedConcat(white, t);
    ReadNatStops(0, digits, rest);
    assert sign != "" ==> t[1..] == digits + rest;
    assert sign == "" ==> t == digits + rest;
  }

  /** Without a digit there stoi throws. */
  lemma StoiRejects(white: string, sign: string, rest: string)
    requires (forall c :: c in white ==> IsSpace(c)) && IsSign(sign)
    requires rest == "" || (DigitValue(rest[0]).None? && (sign == "" ==> !IsSpace(rest[0]) && !IsSign([rest[0]])))
    ensures ReadInt(white + (sign + rest)) == None
  {
    var t := sign + rest;
    assert sign == "" ==> t == rest;
    StrippedConcat(white, t);
    assert sign != "" ==> t[1..] == rest;
  }

  /** updateAVoutputTVParamToHAL's choice of the text to store. */
  function ValueText(e: Enums, param: string, value: int): string {
    if param == "ColorTemp" then
      if value == e.standard then "Standard" else if value == e.warm then "Warm"
      else if value == e.cold then "Cold" else "User Defined"
    else if param == "DimmingMode" then
      if value == e.fixed then "fixed" else if value == e.local then "local" else "global"
    else if param == "DolbyVisionMode" then
      if value == e.dark then "Dark" else if value == e.bright then "Bright" else if value == e.game then "Game" else ""
    else IntText(value)
  }

  /** getLocalparam's reading of a stored text: strncmp over the stored length accepts any prefix of the label.  before
      is what the caller's variable holds; None is stoi's exception. */
  function TextValue(e: Enums, param: string, text: string, before: int): Option<int> {
    if param == "ColorTemp" then
      Some(if text <= "Standard" then e.standard else if text <= "Warm" then e.warm
           else if text <= "Cold" then e.cold else if text <= "User Defined" then e.user else e.standard)
    else if param == "DimmingMode" then
      Some(if text <= "fixed" then e.fixed else if text <= "local" then e.local
           else if text <= "global" then e.global else before)
    else if param == "DolbyVisionMode" then
      Some(if text <= "Dark" then e.dark else if text <= "Game" then e.game else e.bright)
    else ReadInt(text)
  }

  /** A text that is not empty is a prefix of labels with its first letter only. */
  lemma FirstLetters(text: string, a: string, b: string, c: string, d: string)
    requires text != ""
    ensures text <= a ==> a != "" && text[0] == a[0]
    ensures text <= b ==> b != "" && text[0] == b[0]
    ensures text <= c ==> c != "" && text[0] == c[0]
    ensures text <= d ==> d != "" && text[0] == d[0]
  {
  }

  /** Which texts are read as which value: any prefix of a label, the empty text as a prefix of the first one. */
  lemma LabelsRead(e: Enums, text: string, before: int)
    requires Distinct(e)
    ensures var v := TextValue(e, "ColorTemp", text, before);
      && (v == Some(e.warm) <==> text != "" && text <= "Warm")
      && (v == Some(e.cold) <==> text != "" && text <= "Cold")
      && (v == Some(e.user) <==> text != "" && text <= "User Defined")
      && (v == Some(e.standard) <==> text == "" || !(text <= "Warm" || text <= "Cold" || text <= "User Defined"))
    ensures var v := TextValue(e, "DimmingMode", text, before);
      && (text <= "fixed" ==> v == Some(e.fixed))
      && (text != "" && text <= "local" ==> v == Some(e.local))
      && (text != "" && text <= "global" ==> v == Some(e.global))
      && (!(text <= "fixed" || text <= "local" || text <= "global") ==> v == Some(before))
    ensures var v := TextValue(e, "DolbyVisionMode", text, before);
      && (v == Some(e.dark) <==> text <= "Dark")
      && (v == Some(e.game) <==> text != "" && text <= "Game")
      && (v == Some(e.bright) <==> !(text <= "Dark" || text <= "Game"))
  {
    if text != "" {
      FirstLetters(text, "Standard", "Warm", "Cold", "User Defined");
      FirstLetters(text, "fixed", "local", "global", "");
      FirstLetters(text, "Dark", "Game", "", "");
    }
  }

  /** Every value a parameter can be set to is read back from its stored text. */
  lemma ValueRoundTrip(e: Enums, param: string, value: int, before: int)
    requires Distinct(e) && Settable(e, param, value)
    ensures TextValue(e, param, ValueText(e, param, value), before) == Some(value)
  {
    if IsInt(value) {
      IntTextReads(value);
    }
    assert "Warm"[0] != "Standard"[0] && "Cold"[0] != "Standard"[0] && "Cold"[0] != "Warm"[0];
    assert "User Defined"[0] != "Standard"[0] && "User Defined"[0] != "Warm"[0] && "User Defined"[0] != "Cold"[0];
    assert "local"[0] != "fixed"[0] && "global"[0] != "fixed"[0] && "global"[0] != "local"[0];
    assert "Bright"[0] != "Dark"[0] && "Bright"[0] != "Game"[0] && "Game"[0] != "Dark"[0];
  }
}
