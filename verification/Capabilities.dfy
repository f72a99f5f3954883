/** Comma-separated capability lists of AVOutputTV: the two splitters, the joiners, the expansion of "Global" and
    the capability check. */
module Capabilities {

  /** Length of the text before the first comma. */
  function CommaAt(s: string): (c: nat)
    ensures c <= |s|
    ensures forall i :: 0 <= i < c ==> s[i] != ','
    ensures c < |s| ==> s[c] == ','
  {
    if |s| == 0 || s[0] == ',' then 0 else 1 + CommaAt(s[1..])
  }

  predicate CommaFree(s: string) {
    ',' !in s
  }

  /** What repeated getline with a comma yields: an empty last token is not delivered. */
  function Tokens(s: string): (ts: seq<string>)
    ensures forall t :: t in ts ==> CommaFree(t)
    decreases |s|
  {
    if |s| == 0 then []
    else
      var c := CommaAt(s);
      [s[..c]] + if c < |s| then Tokens(s[c + 1..]) else []
  }

  /** What repeated strtok_r with a comma yields: empty tokens are skipped. */
  function Words(s: string): (ts: seq<string>)
    ensures forall t :: t in ts ==> CommaFree(t) && t != ""
    decreases |s|
  {
    if |s| == 0 then []
    else if s[0] == ',' then Words(s[1..])
    else
      var c := CommaAt(s);
      assert s[0] == s[..c][0];
      [s[..c]] + if c < |s| then Words(s[c + 1..]) else []
  }

  /** The list with a comma between neighbours. */
  function Commas(parts: seq<string>): string {
    if |parts| == 0 then ""
    else if |parts| == 1 then parts[0]
    else parts[0] + "," + Commas(parts[1..])
  }

  /** The fold of convertToString: no comma is put after an empty prefix. */
  function JoinFrom(acc: string, parts: seq<string>): string
    decreases |parts|
  {
    if |parts| == 0 then acc
    else JoinFrom(if acc == "" then parts[0] else acc + "," + parts[0], parts[1..])
  }

  function Join(parts: seq<string>): string {
    JoinFrom("", parts)
  }

  // ------------------------------------------------------- the loops

  method FindComma(s: string) returns (len: nat)
    ensures len == CommaAt(s)
  {
    len := 0;
    while len < |s| && s[len] != ','
      invariant len <= CommaAt(s)
    {
      len := len + 1;
    }
  }

  /** One of the getline loops of spliltCapablities. */
  method SplitCapability(info: string) returns (tokens: seq<string>)
    ensures tokens == Tokens(info)
  {
    hide CommaAt;
    tokens := [];
    var pos := 0;
    while pos < |info|
      invariant pos <= |info|
      invariant Tokens(info) == tokens + Tokens(info[pos..])
    {
      var rest := info[pos..];
      var len := FindComma(rest);
      ghost var before := tokens;
      tokens := tokens + [rest[..len]];
      pos := if len < |rest| then pos + len + 1 else pos + len;
      assert info[pos..] == if len < |rest| then rest[len + 1..] else [];
      assert Tokens(rest) == [rest[..len]] + Tokens(info[pos..]);
      assert before + ([rest[..len]] + Tokens(info[pos..])) == tokens + Tokens(info[pos..]);
    }
  }

  /** One of the strtok_r loops of getSaveConfig. */
  method SplitWords(list: string) returns (words: seq<string>)
    ensures words == Words(list)
  {
    words := [];
    var pos := 0;
    while pos < |list|
      invariant pos <= |list|
      invariant Words(list) == words + Words(list[pos..])
    {
      var rest := list[pos..];
      if rest[0] == ',' {
        pos := pos + 1;
        assert list[pos..] == rest[1..];
      } else {
        var len := FindComma(rest);
        words := words + [rest[..len]];
        pos := if len < |rest| then pos + len + 1 else pos + len;
        assert list[pos..] == if len < |rest| then rest[len + 1..] else [];
      }
    }
  }

  method ConvertToString(parts: seq<string>) returns (result: string)
    ensures result == Join(parts)
  {
    result := "";
    for i := 0 to |parts|
      invariant Join(parts) == JoinFrom(result, parts[i..])
    {
      assert parts[i..][1..] == parts[i + 1..];
      result := if result == "" then parts[i] else result + "," + parts[i];
    }
  }

  /** The loops of parsingSetInputArgument. */
  method ListArgument(parts: seq<string>) returns (result: string)
    ensures result == Commas(parts)
  {
    result := "";
    for i := 0 to |parts|
      invariant Commas(parts) == result + Commas(parts[i..])
    {
      assert parts[i..][1..] == parts[i + 1..];
      result := result + parts[i];
      if i != |parts| - 1 {
        result := result + ",";
      }
    }
  }

  // ------------------------------------------------------- join, then split

  lemma {:induction false} CommaAtConcat(x: string, rest: string)
    requires CommaFree(x) && (rest == "" || rest[0] == ',')
    ensures CommaAt(x + rest) == |x|
  {
    if |x| == 0 {
      assert x + rest == rest;
    } else {
      assert (x + rest)[0] == x[0] && (x + rest)[1..] == x[1..] + rest;
      CommaAtConcat(x[1..], rest);
    }
  }

  lemma {:induction false} JoinFromCommas(acc: string, parts: seq<string>)
    requires acc != ""
    ensures JoinFrom(acc, parts) == if |parts| == 0 then acc else acc + "," + Commas(parts)
    decreases |parts|
  {
    if |parts| > 0 {
      JoinFromCommas(acc + "," + parts[0], parts[1..]);
    }
  }

  /** The joiner drops the empty parts at the front and puts commas between the others. */
  function DropEmpty(parts: seq<string>): (kept: seq<string>)
    ensures forall t :: t in kept ==> t in parts
  {
    if |parts| > 0 && parts[0] == "" then DropEmpty(parts[1..]) else parts
  }

  lemma {:induction false} JoinIsCommas(parts: seq<string>)
    ensures Join(parts) == Commas(DropEmpty(parts))
  {
    if |parts| > 0 {
      if parts[0] == "" {
        JoinIsCommas(parts[1..]);
      } else {
        JoinFromCommas(parts[0], parts[1..]);
      }
    }
  }

  ghost predicate Plain(parts: seq<string>) {
    forall t :: t in parts ==> CommaFree(t) && t != ""
  }

  /** Splitting off the first of several parts. */
  lemma SplitFirst(x: string, more: string)
    requires CommaFree(x)
    ensures Tokens(x + "," + more) == [x] + Tokens(more)
    ensures Words(x + "," + more) == (if x == "" then [] else [x]) + Words(more)
  {
    var s := x + "," + more;
    assert s == x + ("," + more);
    CommaAtConcat(x, "," + more);
    assert s[..|x|] == x && s[|x| + 1..] == more;
    assert x == "" ==> s[0] == ',' && s[1..] == more;
    assert x != "" ==> s[0] == x[0] && x[0] in x;
  }

  lemma SplitOnly(x: string)
    requires CommaFree(x)
    ensures Tokens(x) == Words(x) == if x == "" then [] else [x]
  {
    CommaAtConcat(x, "");
    assert x + "" == x && x[..|x|] == x;
    assert x != "" ==> x[0] in x;
  }

  /** Joining a list of non-empty comma-free tokens, by either joiner, and splitting it, by either splitter, gives the
      list back. */
  lemma {:induction false} SplitUndoesJoin(parts: seq<string>)
    requires Plain(parts)
    ensures Join(parts) == Commas(parts)
    ensures Tokens(Commas(parts)) == parts
    ensures Words(Commas(parts)) == parts
  {
    JoinIsCommas(parts);
    if |parts| == 1 {
      assert parts[0] in parts;
      SplitOnly(parts[0]);
    } else if |parts| > 1 {
      assert parts[0] in parts;
      SplitUndoesJoin(parts[1..]);
      SplitFirst(parts[0], Commas(parts[1..]));
      assert parts == [parts[0]] + parts[1..];
    }
  }

  /** Splitting a joined list of comma-free tokens never invents a token. */
  lemma {:induction false} SplitInventsNothing(parts: seq<string>)
    requires forall t :: t in parts ==> CommaFree(t)
    ensures forall t :: t in Tokens(Commas(parts)) ==> t in parts
    ensures forall t :: t in Words(Commas(parts)) ==> t in parts
  {
    if |parts| == 1 {
      assert parts[0] in parts;
      SplitOnly(parts[0]);
    } else if |parts| > 1 {
      assert parts[0] in parts;
      SplitInventsNothing(parts[1..]);
      SplitFirst(parts[0], Commas(parts[1..]));
    }
  }

  // ------------------------------------------------------- the capability check

  function Members(text: string): set<string> {
    set t | t in Tokens(text)
  }

  predicate IsIncluded(caps: set<string>, input: set<string>) {
    forall element :: element in input ==> element in caps
  }

  /** The capability texts of one parameter. */
  datatype Caps = Caps(pqmode: string, source: string, format: string)

  predicate CapabilityCheckPassed(caps: Caps, pqmode: string, source: string, format: string) {
    IsIncluded(Members(caps.pqmode), Members(pqmode)) && IsIncluded(Members(caps.format), Members(format)) &&
    IsIncluded(Members(caps.source), Members(source))
  }

  /** fetchCapablities for one list: an empty capability leaves the empty text. */
  function Fetched(text: string): string {
    if |Tokens(text)| != 0 then Join(Tokens(text)) else ""
  }

  /** convertToValidInputParameter for one argument; current is what the HAL reports. */
  function Expanded(arg: string, text: string, current: string): string {
    if arg == "Global" then Fetched(text) else if arg == "Current" then current else arg
  }

  lemma FetchedIsIncluded(text: string)
    ensures IsIncluded(Members(text), Members(Fetched(text)))
  {
    var ts := Tokens(text);
    JoinIsCommas(ts);
    SplitInventsNothing(DropEmpty(ts));
  }

  /** Whatever the capability texts say, malformed ones with empty entries included, a request for "Global" in any of
      the three positions is expanded to a list that passes the check in that position. */
  lemma GlobalPassesCheck(caps: Caps, pqmode: string, source: string, format: string, current: Caps)
    requires pqmode == "Global" ||
      IsIncluded(Members(caps.pqmode), Members(Expanded(pqmode, caps.pqmode, current.pqmode)))
    requires source == "Global" ||
      IsIncluded(Members(caps.source), Members(Expanded(source, caps.source, current.source)))
    requires format == "Global" ||
      IsIncluded(Members(caps.format), Members(Expanded(format, caps.format, current.format)))
    ensures CapabilityCheckPassed(caps, Expanded(pqmode, caps.pqmode, current.pqmode),
                                  Expanded(source, caps.source, current.source),
                                  Expanded(format, caps.format, current.format))
  {
    FetchedIsIncluded(caps.pqmode);
    FetchedIsIncluded(caps.source);
    FetchedIsIncluded(caps.format);
  }

  /** A list of plain tokens passes exactly when each of them is a token of the capability text. */
  lemma ListPassesIffListed(text: string, parts: seq<string>)
    requires Plain(parts)
    ensures IsIncluded(Members(text), Members(Commas(parts))) <==> forall t :: t in parts ==> t in Tokens(text)
  {
    SplitUndoesJoin(parts);
    if IsIncluded(Members(text), Members(Commas(parts))) {
      forall t | t in parts ensures t in Tokens(text) {
        assert t in Members(Commas(parts));
      }
    }
  }

  /** The check passes exactly when every picture mode, every source and every format asked for is a token of the
      respective capability text. */
  lemma CheckPassesExactly(caps: Caps, modes: seq<string>, sources: seq<string>, formats: seq<string>)
    requires Plain(modes) && Plain(sources) && Plain(formats)
    ensures CapabilityCheckPassed(caps, Commas(modes), Commas(sources), Commas(formats)) <==>
      && (forall m :: m in modes ==> m in Tokens(caps.pqmode))
      && (forall s :: s in sources ==> s in Tokens(caps.source))
      && (forall f :: f in formats ==> f in Tokens(caps.format))
  {
    ListPassesIffListed(caps.pqmode, modes);
    ListPassesIffListed(caps.source, sources);
    ListPassesIffListed(caps.format, formats);
    hide Tokens, Members, IsIncluded;
  }

  // ------------------------------------------------------- nothing is missing from "Global"

  /** Splitting a joined list of comma-free tokens loses only empty ones. */
  lemma {:induction false} SplitKeeps(parts: seq<string>, t: string)
    requires t != "" && forall p :: p in parts ==> CommaFree(p)
    ensures t in parts <==> t in Tokens(Commas(parts))
    ensures t in parts <==> t in Words(Commas(parts))
  {
    if |parts| == 1 {
      assert parts[0] in parts;
      SplitOnly(parts[0]);
    } else if |parts| > 1 {
      assert parts[0] in parts;
      SplitKeeps(parts[1..], t);
      SplitFirst(parts[0], Commas(parts[1..]));
      assert parts == [parts[0]] + parts[1..];
    }
  }

  lemma {:induction false} DropKeeps(parts: seq<string>, t: string)
    requires t != ""
    ensures t in DropEmpty(parts) <==> t in parts
  {
    if |parts| > 0 && parts[0] == "" {
      DropKeeps(parts[1..], t);
      assert parts == [""] + parts[1..];
    }
  }

  /** "Global" stands for exactly the non-empty tokens of the capability text, by either splitter. */
  lemma FetchedIsComplete(text: string, t: string)
    requires t != ""
    ensures t in Tokens(text) <==> t in Tokens(Fetched(text))
    ensures t in Tokens(text) <==> t in Words(Join(Tokens(text)))
  {
    var ts := Tokens(text);
    JoinIsCommas(ts);
    DropKeeps(ts, t);
    SplitKeeps(DropEmpty(ts), t);
    hide Words, DropEmpty;
  }

  lemma GlobalIsComplete(text: string, current: string)
    ensures Members(Expanded("Global", text, current)) - {""} == Members(text) - {""}
  {
    forall t | t != "" ensures t in Members(Expanded("Global", text, current)) <==> t in Members(text) {
      FetchedIsComplete(text, t);
    }
    hide Expanded, Members;
  }
}
