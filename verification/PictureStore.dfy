/** The picture-quality store of AVOutputTV: set, reset and sync over a source x picture mode x format product, keeping
    the persistent overrides and the values saved in the HAL. */
module PictureStore {
  import opened Wrappers
  import opened PictureKeys
  import Capabilities

  datatype Combo = Combo(source: int, pqmode: int, format: int)

  /** What does not change: the tables, the enumerators, the defaults shipped with the image (looked up after the
      overrides) and the defaults in the HAL's own database. */
  datatype Platform = Platform(sources: Table, pqmodes: Table, formats: Table, enums: Enums,
                               shipped: map<string, string>, halDefaults: map<(string, Combo), int>)

  ghost predicate Good(pl: Platform) {
    GoodTable(pl.sources) && GoodTable(pl.pqmodes) && GoodTable(pl.formats) && Distinct(pl.enums)
  }

  /** The combinations the tables can produce, unknown names (index -1) included. */
  ghost predicate Valid(pl: Platform, c: Combo) {
    Produced(pl.sources, c.source) && Produced(pl.pqmodes, c.pqmode) && Produced(pl.formats, c.format)
  }

  /** generateStorageIdentifier. */
  function Key(pl: Platform, param: string, c: Combo): string {
    KeyOf(NameOf(pl.sources, c.source), NameOf(pl.pqmodes, c.pqmode), NameOf(pl.formats, c.format), param)
  }

  /** Different combinations, or different parameters, never share a key. */
  lemma KeyInjective(pl: Platform, p: string, c: Combo, q: string, d: Combo)
    requires Good(pl) && Valid(pl, c) && Valid(pl, d) && Key(pl, p, c) == Key(pl, q, d)
    ensures p == q && c == d
  {
    NameDeterminesIndex(pl.sources, c.source, d.source);
    NameDeterminesIndex(pl.pqmodes, c.pqmode, d.pqmode);
    NameDeterminesIndex(pl.formats, c.format, d.format);
    NameDeterminesIndex(pl.sources, d.source, c.source);
    NameDeterminesIndex(pl.pqmodes, d.pqmode, c.pqmode);
    NameDeterminesIndex(pl.formats, d.format, c.format);
    KeysDistinct(NameOf(pl.sources, c.source), NameOf(pl.pqmodes, c.pqmode), NameOf(pl.formats, c.format), p,
                 NameOf(pl.sources, d.source), NameOf(pl.pqmodes, d.pqmode), NameOf(pl.formats, d.format), q);
  }

  /** The changing part: the override texts by key, and the values saved in the HAL; where nothing has been saved the
      HAL still has its default. */
  datatype Stored = Stored(overrides: map<string, string>, saved: map<(string, Combo), int>)

  function HalDefault(pl: Platform, p: string, c: Combo): int {
    if (p, c) in pl.halDefaults then pl.halDefaults[(p, c)] else 0
  }

  function OverrideAt(pl: Platform, st: Stored, p: string, c: Combo): Option<string> {
    var key := Key(pl, p, c);
    if key in st.overrides then Some(st.overrides[key]) else None
  }

  function HalAt(pl: Platform, st: Stored, p: string, c: Combo): int {
    if (p, c) in st.saved then st.saved[(p, c)] else HalDefault(pl, p, c)
  }

  /** What getLocalParam finds: the override, else the shipped default. */
  function Found(pl: Platform, p: string, c: Combo, override: Option<string>): Option<string> {
    var key := Key(pl, p, c);
    if override.Some? then override
    else if key in pl.shipped then Some(pl.shipped[key]) else None
  }

  /** The value a read returns; None when the text it finds makes it throw. */
  function Effective(pl: Platform, p: string, c: Combo, override: Option<string>): Option<int> {
    match Found(pl, p, c, override)
    case Some(text) => TextValue(pl.enums, p, text, 0)
    case None => Some(HalDefault(pl, p, c))
  }

  datatype Action = Set | Reset | Sync

  // ------------------------------------------------------- what one covered combination becomes

  function NewOverride(pl: Platform, a: Action, p: string, value: int, override: Option<string>): Option<string> {
    match a
    case Set => Some(ValueText(pl.enums, p, value))
    case Reset => None
    case Sync => override
  }

  function NewHal(pl: Platform, a: Action, p: string, value: int, c: Combo, override: Option<string>, hal: int)
    : Option<int>
  {
    match a
    case Set => Some(value)
    case Reset => Effective(pl, p, c, None)
    case Sync => if Found(pl, p, c, override).Some? then Effective(pl, p, c, override) else Some(hal)
  }

  /** A successful call has done its action for the covered combinations of p and nothing else. */
  ghost predicate After(pl: Platform, a: Action, p: string, value: int, st: Stored, st': Stored, covered: set<Combo>) {
    forall q: string, c: Combo :: Valid(pl, c) ==>
      && OverrideAt(pl, st', q, c) ==
         (if q == p && c in covered then NewOverride(pl, a, p, value, OverrideAt(pl, st, q, c))
          else OverrideAt(pl, st, q, c))
      && Some(HalAt(pl, st', q, c)) ==
         (if q == p && c in covered then NewHal(pl, a, p, value, c, OverrideAt(pl, st, q, c), HalAt(pl, st, q, c))
          else Some(HalAt(pl, st, q, c)))
  }

  /** Nothing outside the covered combinations of p has changed. */
  ghost predicate Untouched(pl: Platform, p: string, st: Stored, st': Stored, covered: set<Combo>) {
    forall q: string, c: Combo :: Valid(pl, c) && !(q == p && c in covered) ==>
      OverrideAt(pl, st', q, c) == OverrideAt(pl, st, q, c) && HalAt(pl, st', q, c) == HalAt(pl, st, q, c)
  }

  lemma AfterNothing(pl: Platform, a: Action, p: string, value: int, st: Stored)
    ensures After(pl, a, p, value, st, st, {}) && Untouched(pl, p, st, st, {})
  {
  }

  lemma UntouchedNothing(pl: Platform, p: string, st: Stored, covered: set<Combo>)
    ensures Untouched(pl, p, st, st, covered)
  {
  }

  /** Doing an action for some combinations and then for others does it for both; doing it twice is harmless. */
  lemma AfterBoth(pl: Platform, a: Action, p: string, value: int, st: Stored, st1: Stored, st2: Stored,
                  first: set<Combo>, second: set<Combo>)
    requires After(pl, a, p, value, st, st1, first) && After(pl, a, p, value, st1, st2, second)
    ensures After(pl, a, p, value, st, st2, first + second)
  {
  }

  lemma UntouchedBoth(pl: Platform, p: string, st: Stored, st1: Stored, st2: Stored,
                      first: set<Combo>, second: set<Combo>)
    requires Untouched(pl, p, st, st1, first) && Untouched(pl, p, st1, st2, second)
    ensures Untouched(pl, p, st, st2, first + second)
  {
  }

  lemma UntouchedMore(pl: Platform, p: string, st: Stored, st': Stored, covered: set<Combo>, more: set<Combo>)
    requires Untouched(pl, p, st, st', covered) && covered <= more
    ensures Untouched(pl, p, st, st', more)
  {
    hide Key, Valid, OverrideAt, HalAt;
  }

  /** Some covered combination holds a text that a read throws on. */
  ghost predicate Unreadable(pl: Platform, p: string, st: Stored, covered: set<Combo>) {
    exists c: Combo :: c in covered && Effective(pl, p, c, OverrideAt(pl, st, p, c)) == None
  }

  /** Writing or clearing one key and saving one value touch one combination. */
  lemma OneCombination(pl: Platform, p: string, c: Combo, st: Stored, st': Stored)
    requires Good(pl) && Valid(pl, c)
    requires forall key :: key != Key(pl, p, c) ==>
      (key in st'.overrides <==> key in st.overrides) &&
      (key in st.overrides ==> st'.overrides[key] == st.overrides[key])
    requires forall k :: k != (p, c) ==>
      (k in st'.saved <==> k in st.saved) && (k in st.saved ==> st'.saved[k] == st.saved[k])
    ensures Untouched(pl, p, st, st', {c})
  {
    forall q: string, d: Combo | Valid(pl, d) && !(q == p && d == c)
      ensures OverrideAt(pl, st', q, d) == OverrideAt(pl, st, q, d) && HalAt(pl, st', q, d) == HalAt(pl, st, q, d)
    {
      if Key(pl, q, d) == Key(pl, p, c) {
        KeyInjective(pl, q, d, p, c);
      }
    }
  }

  // ------------------------------------------------------- from names to combinations

  function Product(sources: seq<int>, modes: seq<int>, formats: seq<int>): (cs: set<Combo>)
    ensures forall c: Combo :: c in cs <==> c.source in sources && c.pqmode in modes && c.format in formats
  {
    set s, m, f | s in sources && m in modes && f in formats :: Combo(s, m, f)
  }

  /** getSaveConfig for one list: "none" stands for the whole range of the table's capability. */
  function SaveIndices(t: Table, list: string, range: string): seq<int> {
    var text := if list == "none" then Capabilities.Join(Capabilities.Tokens(range)) else list;
    var words := Capabilities.Words(text);
    seq(|words|, i requires 0 <= i < |words| => IndexOf(t, words[i]))
  }

  lemma SaveIndicesProduced(t: Table, list: string, range: string)
    ensures forall x :: x in SaveIndices(t, list, range) ==> Produced(t, x)
  {
    var text := if list == "none" then Capabilities.Join(Capabilities.Tokens(range)) else list;
    forall name: string ensures Produced(t, IndexOf(t, name)) {
      IndexProduced(t, name);
    }
  }

  /** The combinations that lists of names stand for. */
  function Named(pl: Platform, lists: Capabilities.Caps, ranges: Capabilities.Caps): set<Combo> {
    Product(SaveIndices(pl.sources, lists.source, ranges.source),
            SaveIndices(pl.pqmodes, lists.pqmode, ranges.pqmode),
            SaveIndices(pl.formats, lists.format, ranges.format))
  }

  /** Some list stands for everything, so that a capability text has to be read. */
  predicate NeedsRanges(lists: Capabilities.Caps) {
    lists.pqmode == "none" || lists.source == "none" || lists.format == "none"
  }

  /** getParamIndex for one name; current is the index in use. */
  function ParamIndex(t: Table, name: string, current: int): int {
    if name == "none" || name == "Current" then current else IndexOf(t, name)
  }

  // ------------------------------------------------------- the code

  datatype Lookup = Value(value: int) | Missing | Thrown

  class PqStore {
    const pl: Platform
    var overrides: map<string, string>
    var saved: map<(string, Combo), int>

    /** How many writes the store and the HAL have refused. */
    ghost var refusals: nat

    ghost function View(): Stored
      reads this
    {
      Stored(overrides, saved)
    }

    // The store and the HAL may refuse a write.

    method SetLocalParam(key: string, text: string) returns (ok: bool)
      modifies this`overrides, this`refusals
      ensures overrides == if ok then old(overrides)[key := text] else old(overrides)
      ensures refusals == old(refusals) + if ok then 0 else 1
    {
      ok := *;
      if ok {
        overrides := overrides[key := text];
      } else {
        refusals := refusals + 1;
      }
    }

    method ClearLocalParam(key: string) returns (ok: bool)
      modifies this`overrides, this`refusals
      ensures overrides == if ok then old(overrides) - {key} else old(overrides)
      ensures refusals == old(refusals) + if ok then 0 else 1
    {
      ok := *;
      if ok {
        overrides := overrides - {key};
      } else {
        refusals := refusals + 1;
      }
    }

    method SaveToHal(p: string, c: Combo, value: int) returns (ok: bool)
      modifies this`saved, this`refusals
      ensures saved == if ok then old(saved)[(p, c) := value] else old(saved)
      ensures refusals == old(refusals) + if ok then 0 else 1
    {
      ok := *;
      if ok {
        saved := saved[(p, c) := value];
      } else {
        refusals := refusals + 1;
      }
    }

    /** updateAVoutputTVParamToHAL. */
    method UpdateParamToHal(p: string, c: Combo, value: int, setNotDelete: bool) returns (ok: bool)
      modifies this`overrides, this`refusals
      ensures overrides ==
        if !ok then old(overrides)
        else if setNotDelete then old(overrides)[Key(pl, p, c) := ValueText(pl.enums, p, value)]
        else old(overrides) - {Key(pl, p, c)}
      ensures refusals == old(refusals) + if ok then 0 else 1
    {
      if setNotDelete {
        ok := SetLocalParam(Key(pl, p, c), ValueText(pl.enums, p, value));
      } else {
        ok := ClearLocalParam(Key(pl, p, c));
      }
    }

    /** getLocalparam, reading into a variable that holds 0. */
    method GetLocalParam(p: string, c: Combo, sync: bool) returns (result: Lookup)
      ensures result ==
        if sync && Found(pl, p, c, OverrideAt(pl, View(), p, c)) == None then Missing
        else match Effective(pl, p, c, OverrideAt(pl, View(), p, c)) case Some(v) => Value(v) case None => Thrown
    {
      var key := Key(pl, p, c);
      if key in overrides || key in pl.shipped {
        var text := if key in overrides then overrides[key] else pl.shipped[key];
        var read := TextValue(pl.enums, p, text, 0);
        result := if read.Some? then Value(read.value) else Thrown;
      } else if sync {
        result := Missing;
      } else {
        result := Value(HalDefault(pl, p, c));
      }
    }

    /** The innermost body of updateAVoutputTVParam; threw when an exception left it. */
    method UpdateOne(a: Action, p: string, c: Combo, value: int) returns (ok: bool, threw: bool)
      requires Good(pl) && Valid(pl, c)
      modifies this`overrides, this`saved, this`refusals
      ensures Untouched(pl, p, old(View()), View(), {c})
      ensures ok ==> OverrideAt(pl, View(), p, c) == NewOverride(pl, a, p, value, old(OverrideAt(pl, View(), p, c)))
      ensures var override, hal := old(OverrideAt(pl, View(), p, c)), old(HalAt(pl, View(), p, c));
        ok ==> Some(HalAt(pl, View(), p, c)) == NewHal(pl, a, p, value, c, override, hal)
      ensures threw ==> !ok && !a.Set? && Unreadable(pl, p, View(), {c})
      ensures refusals >= old(refusals) && (ok <==> refusals == old(refusals) && !threw)
    {
      ok, threw := true, false;
      var params0 := value;
      if a.Reset? {
        ok := UpdateParamToHal(p, c, 0, false);
      }
      if a.Sync? || a.Reset? {
        var result := GetLocalParam(p, c, a.Sync?);
        if !result.Value? {
          OneCombination(pl, p, c, old(View()), View());
          threw := result.Thrown?;
          ok := ok && !threw;
          return;
        }
        params0 := result.value;
      }
      if a.Set? {
        ok := UpdateParamToHal(p, c, params0, true);
      }
      var savedOk := SaveToHal(p, c, params0);
      ok := ok && savedOk;
      OneCombination(pl, p, c, old(View()), View());
    }

    /** One round: what UpdateOne does, as an action over one combination. */
    method UpdateCovered(a: Action, p: string, c: Combo, value: int) returns (ok: bool, threw: bool)
      requires Good(pl) && Valid(pl, c)
      modifies this`overrides, this`saved, this`refusals
      ensures Untouched(pl, p, old(View()), View(), {c})
      ensures ok ==> After(pl, a, p, value, old(View()), View(), {c})
      ensures threw ==> !ok && !a.Set? && Unreadable(pl, p, View(), {c})
      ensures refusals >= old(refusals) && (ok <==> refusals == old(refusals) && !threw)
    {
      ok, threw := UpdateOne(a, p, c, value);
      hide Key, Valid, OverrideAt, HalAt, NewOverride, NewHal;
    }

    /** The loop over the formats. */
    method UpdateFormats(a: Action, p: string, source: int, mode: int, formats: seq<int>, value: int)
      returns (ok: bool, threw: bool)
      requires Good(pl) && Produced(pl.sources, source) && Produced(pl.pqmodes, mode)
      requires forall f :: f in formats ==> Produced(pl.formats, f)
      modifies this`overrides, this`saved, this`refusals
      ensures Untouched(pl, p, old(View()), View(), Product([source], [mode], formats))
      ensures ok ==> After(pl, a, p, value, old(View()), View(), Product([source], [mode], formats))
      ensures threw ==> !ok && !a.Set? && Unreadable(pl, p, View(), Product([source], [mode], formats))
      ensures refusals >= old(refusals) && (ok <==> refusals == old(refusals) && !threw)
    {
      hide Untouched, After, Effective, OverrideAt;
      ok, threw := true, false;
      ghost var covered: set<Combo> := {};
      AfterNothing(pl, a, p, value, View());
      for k := 0 to |formats|
        invariant forall c :: c in covered <==> c.source == source && c.pqmode == mode && c.format in formats[..k]
        invariant Untouched(pl, p, old(View()), View(), covered)
        invariant ok ==> After(pl, a, p, value, old(View()), View(), covered)
        invariant refusals >= old(refusals) && (ok <==> refusals == old(refusals))
      {
        ghost var before := View();
        var c := Combo(source, mode, formats[k]);
        var oneOk, oneThrew := UpdateCovered(a, p, c, value);
        UntouchedBoth(pl, p, old(View()), before, View(), covered, {c});
        if oneThrew {
          UntouchedMore(pl, p, old(View()), View(), covered + {c}, Product([source], [mode], formats));
          return false, true;
        }
        if ok && oneOk {
          AfterBoth(pl, a, p, value, old(View()), before, View(), covered, {c});
        }
        ok, covered := ok && oneOk, covered + {c};
      }
      assert covered == Product([source], [mode], formats);
    }

    /** The loop over the picture modes. */
    method UpdateModes(a: Action, p: string, source: int, modes: seq<int>, formats: seq<int>, value: int)
      returns (ok: bool, threw: bool)
      requires Good(pl) && Produced(pl.sources, source)
      requires forall m :: m in modes ==> Produced(pl.pqmodes, m)
      requires forall f :: f in formats ==> Produced(pl.formats, f)
      modifies this`overrides, this`saved, this`refusals
      ensures Untouched(pl, p, old(View()), View(), Product([source], modes, formats))
      ensures ok ==> After(pl, a, p, value, old(View()), View(), Product([source], modes, formats))
      ensures threw ==> !ok && !a.Set? && Unreadable(pl, p, View(), Product([source], modes, formats))
      ensures refusals >= old(refusals) && (ok <==> refusals == old(refusals) && !threw)
    {
      hide Untouched, After, Effective, OverrideAt;
      ok, threw := true, false;
      ghost var covered: set<Combo> := {};
      AfterNothing(pl, a, p, value, View());
      for k := 0 to |modes|
        invariant forall c :: c in covered <==> c.source == source && c.pqmode in modes[..k] && c.format in formats
        invariant Untouched(pl, p, old(View()), View(), covered)
        invariant ok ==> After(pl, a, p, value, old(View()), View(), covered)
        invariant refusals >= old(refusals) && (ok <==> refusals == old(refusals))
      {
        ghost var before := View();
        ghost var row := Product([source], [modes[k]], formats);
        var rowOk, rowThrew := UpdateFormats(a, p, source, modes[k], formats, value);
        UntouchedBoth(pl, p, old(View()), before, View(), covered, row);
        if rowThrew {
          UntouchedMore(pl, p, old(View()), View(), covered + row, Product([source], modes, formats));
          return false, true;
        }
        if ok && rowOk {
          AfterBoth(pl, a, p, value, old(View()), before, View(), covered, row);
        }
        ok, covered := ok && rowOk, covered + row;
      }
      assert covered == Product([source], modes, formats);
    }

    /** updateAVoutputTVParam on index lists.  When it reports success the action has been done for exactly the
        combinations of the product; whatever it reports, nothing else has changed.  It throws only on a text in the
        product that cannot be read, and never when setting. */
    method UpdateParam(a: Action, p: string, sources: seq<int>, modes: seq<int>, formats: seq<int>, value: int)
      returns (ok: bool, threw: bool)
      requires Good(pl)
      requires forall s :: s in sources ==> Produced(pl.sources, s)
      requires forall m :: m in modes ==> Produced(pl.pqmodes, m)
      requires forall f :: f in formats ==> Produced(pl.formats, f)
      modifies this`overrides, this`saved, this`refusals
      ensures Untouched(pl, p, old(View()), View(), Product(sources, modes, formats))
      ensures ok ==> After(pl, a, p, value, old(View()), View(), Product(sources, modes, formats))
      ensures threw ==> !ok && !a.Set? && Unreadable(pl, p, View(), Product(sources, modes, formats))
      ensures refusals >= old(refusals) && (ok <==> refusals == old(refusals) && !threw)
    {
      hide Untouched, After, Effective, OverrideAt;
      ok, threw := true, false;
      ghost var covered: set<Combo> := {};
      AfterNothing(pl, a, p, value, View());
      for k := 0 to |sources|
        invariant forall c :: c in covered <==> c.source in sources[..k] && c.pqmode in modes && c.format in formats
        invariant Untouched(pl, p, old(View()), View(), covered)
        invariant ok ==> After(pl, a, p, value, old(View()), View(), covered)
        invariant refusals >= old(refusals) && (ok <==> refusals == old(refusals))
      {
        ghost var before := View();
        ghost var row := Product([sources[k]], modes, formats);
        var rowOk, rowThrew := UpdateModes(a, p, sources[k], modes, formats, value);
        UntouchedBoth(pl, p, old(View()), before, View(), covered, row);
        if rowThrew {
          UntouchedMore(pl, p, old(View()), View(), covered + row, Product(sources, modes, formats));
          return false, true;
        }
        if ok && rowOk {
          AfterBoth(pl, a, p, value, old(View()), before, View(), covered, row);
        }
        ok, covered := ok && rowOk, covered + row;
      }
      assert covered == Product(sources, modes, formats);
    }

    /** A get call: None when a name is unknown. */
    method GetNamed(p: string, names: Capabilities.Caps, current: Combo) returns (result: Option<Lookup>)
      ensures var c := Combo(ParamIndex(pl.sources, names.source, current.source),
                             ParamIndex(pl.pqmodes, names.pqmode, current.pqmode),
                             ParamIndex(pl.formats, names.format, current.format));
        result ==
          if c.source == -1 || c.pqmode == -1 || c.format == -1 then None
          else match Effective(pl, p, c, OverrideAt(pl, View(), p, c))
            case Some(v) => Some(Value(v))
            case None => Some(Thrown)
    {
      var c := current;
      if names.source != "none" && names.source != "Current" {
        var index := FindIndex(pl.sources, names.source);
        c := c.(source := index);
      }
      if names.pqmode != "none" && names.pqmode != "Current" {
        var index := FindIndex(pl.pqmodes, names.pqmode);
        c := c.(pqmode := index);
      }
      if names.format != "none" && names.format != "Current" {
        var index := FindIndex(pl.formats, names.format);
        c := c.(format := index);
      }
      if c.source == -1 || c.pqmode == -1 || c.format == -1 {
        return None;
      }
      var lookup := GetLocalParam(p, c, false);
      return Some(lookup);
    }

    /** One of the three loops of getSaveConfig, after getAvailableCapabilityModes. */
    method SaveConfig(t: Table, list: string, range: string) returns (indices: seq<int>)
      ensures indices == SaveIndices(t, list, range)
    {
      var text := list;
      if text == "none" {
        var names := Capabilities.SplitCapability(range);
        text := Capabilities.ConvertToString(names);
      }
      var words := Capabilities.SplitWords(text);
      indices := [];
      for k := 0 to |words|
        invariant |indices| == k && forall i :: 0 <= i < k ==> indices[i] == IndexOf(t, words[i])
      {
        var index := FindIndex(t, words[k]);
        indices := indices + [index];
      }
    }

    /** updateAVoutputTVParam as it is called, on lists of names.  ranges holds the capability texts of PictureMode,
        VideoSource and VideoFormat; reading them may fail when one is needed. */
    method UpdateNamed(a: Action, p: string, lists: Capabilities.Caps, ranges: Capabilities.Caps, rangesOk: bool,
                       value: int)
      returns (ok: bool, threw: bool)
      requires Good(pl)
      modifies this`overrides, this`saved, this`refusals
      ensures Untouched(pl, p, old(View()), View(), Named(pl, lists, ranges))
      ensures ok ==> After(pl, a, p, value, old(View()), View(), Named(pl, lists, ranges))
      ensures threw ==> !ok && !a.Set? && Unreadable(pl, p, View(), Named(pl, lists, ranges))
      ensures refusals >= old(refusals)
      ensures ok <==> refusals == old(refusals) && !threw && (rangesOk || !NeedsRanges(lists))
    {
      hide Untouched, After, SaveIndices;
      UntouchedNothing(pl, p, View(), Named(pl, lists, ranges));
      if !rangesOk && (lists.pqmode == "none" || lists.source == "none" || lists.format == "none") {
        return false, false;
      }
      var modes := SaveConfig(pl.pqmodes, lists.pqmode, ranges.pqmode);
      var sources := SaveConfig(pl.sources, lists.source, ranges.source);
      var formats := SaveConfig(pl.formats, lists.format, ranges.format);
      SaveIndicesProduced(pl.pqmodes, lists.pqmode, ranges.pqmode);
      SaveIndicesProduced(pl.sources, lists.source, ranges.source);
      SaveIndicesProduced(pl.formats, lists.format, ranges.format);
      ok, threw := UpdateParam(a, p, sources, modes, formats, value);
    }
  }

  // ------------------------------------------------------- whole runs

  datatype Call = Call(action: Action, param: string, value: int, covered: set<Combo>)

  /** A run of successful calls. */
  ghost predicate Ran(pl: Platform, calls: seq<Call>, states: seq<Stored>) {
    && |states| == |calls| + 1
    && forall i :: 0 <= i < |calls| ==>
         After(pl, calls[i].action, calls[i].param, calls[i].value, states[i], states[i + 1], calls[i].covered)
  }

  predicate Settles(call: Call, p: string, c: Combo) {
    call.param == p && c in call.covered && !call.action.Sync?
  }

  /** What a read should give after the first n calls, by looking back for the last set or reset that covers the
      combination: the value that was set, or the default after a reset; before any such call, what the persisted
      overrides say. */
  function LastWritten(pl: Platform, calls: seq<Call>, st: Stored, p: string, c: Combo, n: nat): Option<int>
    requires n <= |calls|
  {
    if n == 0 then Effective(pl, p, c, OverrideAt(pl, st, p, c))
    else if Settles(calls[n - 1], p, c) then
      if calls[n - 1].action.Set? then Some(calls[n - 1].value) else Effective(pl, p, c, None)
    else LastWritten(pl, calls, st, p, c, n - 1)
  }

  /** Over every run of successful set, reset and sync calls, on any lists, a read returns what was last written. */
  lemma {:induction false} ReadsLastWritten(pl: Platform, calls: seq<Call>, states: seq<Stored>, p: string, c: Combo,
                                            n: nat)
    requires Good(pl) && Ran(pl, calls, states) && n <= |calls| && Valid(pl, c)
    requires forall i :: 0 <= i < |calls| && calls[i].action.Set? ==>
      Settable(pl.enums, calls[i].param, calls[i].value)
    ensures Effective(pl, p, c, OverrideAt(pl, states[n], p, c)) == LastWritten(pl, calls, states[0], p, c, n)
  {
    if n > 0 {
      ReadsLastWritten(pl, calls, states, p, c, n - 1);
      var call := calls[n - 1];
      assert After(pl, call.action, call.param, call.value, states[n - 1], states[n], call.covered);
      assert OverrideAt(pl, states[n], p, c) ==
        if p == call.param && c in call.covered
        then NewOverride(pl, call.action, call.param, call.value, OverrideAt(pl, states[n - 1], p, c))
        else OverrideAt(pl, states[n - 1], p, c);
      if Settles(call, p, c) && call.action.Set? {
        ValueRoundTrip(pl.enums, p, call.value, 0);
      }
    }
  }

  /** The HAL has what a read returns. */
  predicate Coherent(pl: Platform, st: Stored, p: string, c: Combo) {
    Effective(pl, p, c, OverrideAt(pl, st, p, c)) == Some(HalAt(pl, st, p, c))
  }

  /** Where neither an override nor a shipped default exists, the HAL has its own default. */
  predicate DefaultKept(pl: Platform, st: Stored, p: string, c: Combo) {
    Found(pl, p, c, OverrideAt(pl, st, p, c)) == None ==> HalAt(pl, st, p, c) == HalDefault(pl, p, c)
  }

  predicate Reaches(calls: seq<Call>, p: string, c: Combo, n: nat)
    requires n <= |calls|
  {
    exists i :: 0 <= i < n && calls[i].param == p && c in calls[i].covered
  }

  lemma CallKeepsCoherence(pl: Platform, call: Call, st: Stored, st': Stored, p: string, c: Combo)
    requires After(pl, call.action, call.param, call.value, st, st', call.covered) && Valid(pl, c) && Good(pl)
    requires call.action.Set? ==> Settable(pl.enums, call.param, call.value)
    requires DefaultKept(pl, st, p, c)
    ensures DefaultKept(pl, st', p, c)
    ensures (call.param == p && c in call.covered) || Coherent(pl, st, p, c) ==> Coherent(pl, st', p, c)
  {
    assert OverrideAt(pl, st', p, c) ==
      if p == call.param && c in call.covered
      then NewOverride(pl, call.action, call.param, call.value, OverrideAt(pl, st, p, c))
      else OverrideAt(pl, st, p, c);
    if call.action.Set? {
      ValueRoundTrip(pl.enums, call.param, call.value, 0);
    }
  }

  /** Over every run of successful calls, from any persisted overrides, a combination that some call has reached, or
      that started so, has in the HAL exactly what a read returns: the stored override if there is one and the
      effective default otherwise. */
  lemma {:induction false} HalFollowsStore(pl: Platform, calls: seq<Call>, states: seq<Stored>, p: string, c: Combo,
                                           n: nat)
    requires Good(pl) && Ran(pl, calls, states) && n <= |calls| && Valid(pl, c)
    requires forall i :: 0 <= i < |calls| && calls[i].action.Set? ==>
      Settable(pl.enums, calls[i].param, calls[i].value)
    requires DefaultKept(pl, states[0], p, c)
    ensures DefaultKept(pl, states[n], p, c)
    ensures Reaches(calls, p, c, n) || Coherent(pl, states[0], p, c) ==> Coherent(pl, states[n], p, c)
  {
    if n > 0 {
      HalFollowsStore(pl, calls, states, p, c, n - 1);
      CallKeepsCoherence(pl, calls[n - 1], states[n - 1], states[n], p, c);
      if Reaches(calls, p, c, n) && !(calls[n - 1].param == p && c in calls[n - 1].covered) {
        var i :| 0 <= i < n && calls[i].param == p && c in calls[i].covered;
        assert Reaches(calls, p, c, n - 1);
      }
    }
  }

  /** From a HAL with nothing saved: the same for every combination that has been reached or that nothing is stored for,
      whatever overrides persist. */
  lemma FromFreshHal(pl: Platform, calls: seq<Call>, states: seq<Stored>, p: string, c: Combo, n: nat)
    requires Good(pl) && Ran(pl, calls, states) && n <= |calls| && Valid(pl, c) && states[0].saved == map[]
    requires forall i :: 0 <= i < |calls| && calls[i].action.Set? ==>
      Settable(pl.enums, calls[i].param, calls[i].value)
    ensures Reaches(calls, p, c, n) || Found(pl, p, c, OverrideAt(pl, states[0], p, c)) == None ==>
      Coherent(pl, states[n], p, c)
  {
    HalFollowsStore(pl, calls, states, p, c, n);
  }

  // ------------------------------------------------------- what lists of names cover

  lemma {:induction false} PositionOf(t: Table, name: string) returns (i: nat)
    requires IndexOf(t, name) != -1
    ensures i < |t| && t[i].0 == name
  {
    if t[0].0 == name {
      i := 0;
    } else {
      i := PositionOf(t[1..], name);
      i := i + 1;
    }
  }

  lemma NameOfFound(t: Table, name: string)
    requires GoodTable(t) && IndexOf(t, name) != -1
    ensures NameOf(t, IndexOf(t, name)) == name
  {
    var i := PositionOf(t, name);
    TableLookup(t, i);
  }

  /** The indices of a list of names contain a known index exactly when its own name is in the list. */
  lemma WordsCover(t: Table, words: seq<string>, xs: seq<int>, i: nat)
    requires GoodTable(t) && i < |t| && |xs| == |words|
    requires forall k :: 0 <= k < |xs| ==> xs[k] == IndexOf(t, words[k])
    ensures t[i].1 in xs <==> t[i].0 in words
  {
    TableLookup(t, i);
    if t[i].1 in xs {
      var k :| 0 <= k < |xs| && xs[k] == t[i].1;
      NameOfFound(t, words[k]);
      assert words[k] in words;
    }
    if t[i].0 in words {
      var k :| 0 <= k < |words| && words[k] == t[i].0;
      assert xs[k] in xs;
    }
  }

  /** A known index is covered by a joined list of names exactly when its own name is in the list. */
  lemma CoveredIffNamed(t: Table, parts: seq<string>, range: string, i: nat)
    requires GoodTable(t) && Capabilities.Plain(parts) && i < |t| && Capabilities.Commas(parts) != "none"
    ensures t[i].1 in SaveIndices(t, Capabilities.Commas(parts), range) <==> t[i].0 in parts
  {
    Capabilities.SplitUndoesJoin(parts);
    WordsCover(t, parts, SaveIndices(t, Capabilities.Commas(parts), range), i);
  }

  /** "none" covers a known index exactly when its name is a token of the capability text, whatever that text. */
  lemma CoveredByNone(t: Table, range: string, i: nat)
    requires GoodTable(t) && i < |t|
    ensures t[i].1 in SaveIndices(t, "none", range) <==> t[i].0 in Capabilities.Tokens(range)
  {
    var text := Capabilities.Join(Capabilities.Tokens(range));
    Capabilities.FetchedIsComplete(range, t[i].0);
    WordsCover(t, Capabilities.Words(text), SaveIndices(t, "none", range), i);
  }

  /** One list of a request: everything, or the names that are joined. */
  datatype Request = All | These(names: seq<string>)

  ghost predicate Usable(r: Request) {
    r.These? ==> Capabilities.Plain(r.names) && Capabilities.Commas(r.names) != "none"
  }

  function ListOf(r: Request): string {
    if r.All? then "none" else Capabilities.Commas(r.names)
  }

  /** The name is asked for; range is the capability text. */
  predicate Asks(r: Request, range: string, name: string) {
    if r.All? then name in Capabilities.Tokens(range) else name in r.names
  }

  lemma RequestCovers(t: Table, r: Request, range: string, i: nat)
    requires GoodTable(t) && Usable(r) && i < |t|
    ensures t[i].1 in SaveIndices(t, ListOf(r), range) <==> Asks(r, range, t[i].0)
  {
    if r.All? {
      CoveredByNone(t, range, i);
    } else {
      CoveredIffNamed(t, r.names, range, i);
    }
  }

  /** A request, any mix of "none" and joined lists, covers a known combination exactly when each of the combination's
      three names is asked for. */
  lemma NamedCovers(pl: Platform, source: Request, pqmode: Request, format: Request, ranges: Capabilities.Caps,
                    s: nat, m: nat, f: nat)
    requires Good(pl) && s < |pl.sources| && m < |pl.pqmodes| && f < |pl.formats|
    requires Usable(source) && Usable(pqmode) && Usable(format)
    ensures var lists := Capabilities.Caps(ListOf(pqmode), ListOf(source), ListOf(format));
      Combo(pl.sources[s].1, pl.pqmodes[m].1, pl.formats[f].1) in Named(pl, lists, ranges) <==>
      Asks(source, ranges.source, pl.sources[s].0) && Asks(pqmode, ranges.pqmode, pl.pqmodes[m].0) &&
      Asks(format, ranges.format, pl.formats[f].0)
  {
    RequestCovers(pl.sources, source, ranges.source, s);
    RequestCovers(pl.pqmodes, pqmode, ranges.pqmode, m);
    RequestCovers(pl.formats, format, ranges.format, f);
    hide SaveIndices, ListOf, Asks;
  }

  const ALL := Capabilities.Caps("none", "none", "none")

  /** The boot-time sync. After a successful sync of everything, each combination whose three names are in the
      capability texts has in the HAL what a read returns, if an override or a shipped default exists or the HAL had
      its own default. */
  lemma BootSyncs(pl: Platform, p: string, value: int, st: Stored, st': Stored, ranges: Capabilities.Caps,
                  s: nat, m: nat, f: nat)
    requires Good(pl) && s < |pl.sources| && m < |pl.pqmodes| && f < |pl.formats|
    requires After(pl, Sync, p, value, st, st', Named(pl, ALL, ranges))
    requires pl.sources[s].0 in Capabilities.Tokens(ranges.source)
    requires pl.pqmodes[m].0 in Capabilities.Tokens(ranges.pqmode)
    requires pl.formats[f].0 in Capabilities.Tokens(ranges.format)
    ensures var c := Combo(pl.sources[s].1, pl.pqmodes[m].1, pl.formats[f].1);
      Found(pl, p, c, OverrideAt(pl, st, p, c)).Some? || DefaultKept(pl, st, p, c) ==> Coherent(pl, st', p, c)
  {
    var c := Combo(pl.sources[s].1, pl.pqmodes[m].1, pl.formats[f].1);
    NamedCovers(pl, All, All, All, ranges, s, m, f);
    assert Valid(pl, c);
    assert OverrideAt(pl, st', p, c) == OverrideAt(pl, st, p, c);
  }

  // ------------------------------------------------------- defaults

  /** The key under which the image ships a default for a named combination. */
  function ShippedKey(source: string, pqmode: string, format: string, p: string): string {
    "Device.DeviceInfo.X_RDKCENTRAL-COM_RFC.AVOutput.Source." + source + ".PicMode." + pqmode + ".Format." + format +
    "." + p
  }

  lemma KeyIsShippedKey(source: string, pqmode: string, format: string, p: string)
    ensures KeyOf(source, pqmode, format, p) == ShippedKey(source, pqmode, format, p)
  {
    assert PREFIX + "Source." == "Device.DeviceInfo.X_RDKCENTRAL-COM_RFC.AVOutput.Source.";
    assert ".PicMode." == "." + "PicMode." && ".Format." == "." + "Format.";
  }

  /** Where no override is stored a read returns the default the image ships for the three names, if it ships one, and
      the HAL's own default otherwise. */
  lemma DefaultReads(pl: Platform, st: Stored, p: string, v: int, s: nat, m: nat, f: nat)
    requires Good(pl) && s < |pl.sources| && m < |pl.pqmodes| && f < |pl.formats|
    requires Settable(pl.enums, p, v)
    ensures var c := Combo(pl.sources[s].1, pl.pqmodes[m].1, pl.formats[f].1);
      var key := ShippedKey(pl.sources[s].0, pl.pqmodes[m].0, pl.formats[f].0, p);
      key !in st.overrides ==>
        && (key in pl.shipped && pl.shipped[key] == ValueText(pl.enums, p, v) ==>
              Effective(pl, p, c, OverrideAt(pl, st, p, c)) == Some(v))
        && (key !in pl.shipped && (p, c) in pl.halDefaults ==>
              Effective(pl, p, c, OverrideAt(pl, st, p, c)) == Some(pl.halDefaults[(p, c)]))
  {
    var c := Combo(pl.sources[s].1, pl.pqmodes[m].1, pl.formats[f].1);
    TableLookup(pl.sources, s);
    TableLookup(pl.pqmodes, m);
    TableLookup(pl.formats, f);
    KeyIsShippedKey(pl.sources[s].0, pl.pqmodes[m].0, pl.formats[f].0, p);
    ValueRoundTrip(pl.enums, p, v, 0);
    hide KeyOf, ShippedKey, ValueText, TextValue, Settable;
  }

  /** A get call on a known name means that name's index; "none" and "Current" mean the one in use. */
  lemma GetMeansName(t: Table, i: nat, current: int)
    requires GoodTable(t) && i < |t| && t[i].0 != "none" && t[i].0 != "Current"
    ensures ParamIndex(t, t[i].0, current) == t[i].1
    ensures ParamIndex(t, "none", current) == ParamIndex(t, "Current", current) == current
  {
    TableLookup(t, i);
  }
}
