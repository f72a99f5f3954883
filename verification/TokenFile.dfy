/** The keyed list file of ContinueWatching, and the token calls over it. */
module TokenFile {
  import opened Base64
  import opened Wrappers
  import opened TokenPipeline

  /** An element of the "tokens" array; either member may be missing. */
  datatype Entry = Entry(name: Option<Bytes>, data: Option<Bytes>)

  /** The file: absent, without a "tokens" member (or not JSON at all), or a list. */
  datatype Document = Absent | NoTokens | Tokens(entries: seq<Entry>)

  function Entries(d: Document): seq<Entry> {
    if d.Tokens? then d.entries else []
  }

  /** The position of the first entry of the application, the length when there is none. */
  function FirstOf(entries: seq<Entry>, app: Bytes): (i: nat)
    ensures i <= |entries|
    ensures i < |entries| ==> entries[i].name == Some(app)
    ensures forall j :: 0 <= j < i ==> entries[j].name != Some(app)
  {
    if entries == [] || entries[0].name == Some(app) then 0 else 1 + FirstOf(entries[1..], app)
  }

  lemma FirstOfIs(entries: seq<Entry>, app: Bytes, i: nat)
    requires i <= |entries|
    requires i < |entries| ==> entries[i].name == Some(app)
    requires forall j :: 0 <= j < i ==> entries[j].name != Some(app)
    ensures FirstOf(entries, app) == i
  {
  }

  /** The list after a write.  An entry of the application without data stays as it is: there is nothing to replace. */
  function Written(d: Document, app: Bytes, data: Bytes): Document {
    var entries, i := Entries(d), FirstOf(Entries(d), app);
    if i == |entries| then Tokens(entries + [Entry(Some(app), Some(CStr(data)))])
    else if entries[i].data == None then d
    else Tokens(entries[i := entries[i].(data := Some(CStr(data)))])
  }

  function Read(d: Document, app: Bytes): Bytes {
    var entries, i := Entries(d), FirstOf(Entries(d), app);
    if i < |entries| && entries[i].data.Some? then entries[i].data.value else []
  }

  predicate Has(d: Document, app: Bytes) {
    FirstOf(Entries(d), app) < |Entries(d)|
  }

  function Deleted(d: Document, app: Bytes): Document {
    var entries, i := Entries(d), FirstOf(Entries(d), app);
    if i < |entries| then Tokens(entries[..i] + entries[i + 1..]) else d
  }

  // ------------------------------------------------------- the calls

  /** "netflix", the only application there is an implementation for. */
  const NETFLIX: Bytes := [110, 101, 116, 102, 108, 105, 120]

  datatype Call =
    | Set(app: Bytes, token: Bytes, available: bool, writable: bool)
    | Delete(app: Bytes, enabled: bool, writable: bool)

  /** The call reports success. */
  predicate Took(d: Document, call: Call) {
    match call
    case Set(app, token, available, writable) => |token| > 0 && app == NETFLIX && available && writable
    case Delete(app, enabled, writable) => app == NETFLIX && enabled && Has(d, app) && writable
  }

  function AfterCall(c: Crypto, d: Document, call: Call): Document {
    if !Took(d, call) then d
    else
      match call
      case Set(app, token, _, _) => Written(d, app, Sealed(c, token))
      case Delete(app, _, _) => Deleted(d, app)
  }

  function Got(c: Crypto, d: Document, app: Bytes): Bytes {
    if app != NETFLIX || Read(d, app) == [] then [] else Opened(c, Read(d, app))
  }

  /** Some entry of the file carries the application's name. */
  predicate HasEntry(d: Document, app: Bytes) {
    exists i :: 0 <= i < |Entries(d)| && Entries(d)[i].name == Some(app)
  }

  lemma TookExactly(d: Document, call: Call)
    ensures Took(d, call) <==>
      match call
      case Set(app, token, available, writable) => |token| > 0 && app == NETFLIX && available && writable
      case Delete(app, enabled, writable) => app == NETFLIX && enabled && writable && HasEntry(d, app)
  {
    if i: nat :| i < |Entries(d)| && Entries(d)[i].name == Some(call.app) {
      assert FirstOf(Entries(d), call.app) <= i;
    }
  }

  // ------------------------------------------------------- in place

  class ContinueWatchingImpl {
    var file: Document

    /** writable: the file can be opened for writing. */
    method WriteToJson(app: Bytes, protectedData: Bytes, writable: bool) returns (ok: bool)
      modifies this
      ensures ok == writable
      ensures file == if writable then Written(old(file), app, protectedData) else old(file)
    {
      var createNewJsonDoc := true;
      var tokens: seq<Entry> := [];
      if file.Tokens? {
        tokens := file.entries;
        createNewJsonDoc := false;
        var tokenUpdated := false;
        var i := 0;
        while i < |tokens|
          invariant i <= |tokens| && !tokenUpdated && tokens == file.entries
          invariant forall j :: 0 <= j < i ==> tokens[j].name != Some(app)
        {
          if tokens[i].name == Some(app) {
            tokenUpdated := true;
            if tokens[i].data.Some? {
              tokens := tokens[i := tokens[i].(data := Some(CStr(protectedData)))];
            }
            break;
          }
          i := i + 1;
        }
        FirstOfIs(file.entries, app, i);
        if !tokenUpdated {
          tokens := tokens + [Entry(Some(app), Some(CStr(protectedData)))];
        }
      }
      if createNewJsonDoc {
        tokens := [Entry(Some(app), Some(CStr(protectedData)))];
      }
      ok := writable;
      if ok { file := Tokens(tokens); }
    }

    method ReadFromJson(app: Bytes) returns (data: Bytes)
      ensures data == Read(file, app)
    {
      data := [];
      var tokens := if file.Tokens? then file.entries else [];
      var i := 0;
      while i < |tokens|
        invariant i <= |tokens| && data == []
        invariant forall j :: 0 <= j < i ==> tokens[j].name != Some(app)
      {
        if tokens[i].name == Some(app) {
          if tokens[i].data.Some? {
            data := tokens[i].data.value;
          }
          break;
        }
        i := i + 1;
      }
      FirstOfIs(tokens, app, i);
    }

    method DeleteToken(app: Bytes, enabled: bool, writable: bool) returns (ok: bool)
      modifies this
      ensures ok <==> enabled && Has(old(file), app) && writable
      ensures file == if ok then Deleted(old(file), app) else old(file)
    {
      if !enabled { return false; }
      ok := false;
      var tokens := if file.Tokens? then file.entries else [];
      var i := 0;
      while i < |tokens|
        invariant i <= |tokens| && !ok && tokens == Entries(file)
        invariant forall j :: 0 <= j < i ==> tokens[j].name != Some(app)
      {
        if tokens[i].name == Some(app) {
          ok := true;
          tokens := tokens[..i] + tokens[i + 1..];
          break;
        }
        i := i + 1;
      }
      FirstOfIs(Entries(file), app, i);
      if !ok { return; }
      ok := writable;
      if ok { file := Tokens(tokens); }
    }

    method SetAppToken(c: Crypto, app: Bytes, token: Bytes, available: bool, writable: bool) returns (ok: bool)
      requires Lawful(c)
      modifies this
      ensures file == AfterCall(c, old(file), Set(app, token, available, writable))
      ensures ok <==> |token| > 0 && app == NETFLIX && available && writable
      ensures !ok ==> file == old(file)
    {
      if |token| < 1 { return false; }
      if app != NETFLIX { return false; }
      var text := Seal(c, token, available);
      if text.None? { return false; }
      ok := WriteToJson(app, text.value, writable);
    }

    method GetAppToken(c: Crypto, app: Bytes, available: bool) returns (token: Bytes)
      requires Lawful(c)
      ensures token == if available then Got(c, file, app) else []
    {
      if app != NETFLIX { return []; }
      var stored := ReadFromJson(app);
      if stored == [] { return []; }
      token := Open(c, stored, available);
    }

    method DeleteAppToken(c: Crypto, app: Bytes, enabled: bool, writable: bool) returns (ok: bool)
      modifies this
      ensures file == AfterCall(c, old(file), Delete(app, enabled, writable))
      ensures ok <==> app == NETFLIX && enabled && writable && HasEntry(old(file), app)
      ensures !ok ==> file == old(file)
    {
      TookExactly(file, Delete(app, enabled, writable));
      if app != NETFLIX { return false; }
      ok := DeleteToken(app, enabled, writable);
    }
  }

  // ------------------------------------------------------- the list as a map

  predicate Complete(entries: seq<Entry>) {
    forall i :: 0 <= i < |entries| ==> entries[i].name.Some? && entries[i].data.Some?
  }

  predicate Distinct(entries: seq<Entry>) {
    forall i, j :: 0 <= i < j < |entries| ==> entries[i].name != entries[j].name
  }

  /** At most one entry per application, and every entry complete. */
  predicate Kept(d: Document) {
    Complete(Entries(d)) && Distinct(Entries(d))
  }

  /** What each application has stored, the first entry counting. */
  function Stored(entries: seq<Entry>): map<Bytes, Bytes> {
    if entries == [] then map[]
    else
      var rest := Stored(entries[1..]);
      if entries[0].name.Some? && entries[0].data.Some? then rest[entries[0].name.value := entries[0].data.value]
      else rest
  }

  lemma {:induction false} StoredAt(entries: seq<Entry>, app: Bytes)
    requires Complete(entries)
    ensures app in Stored(entries) <==> Has(Tokens(entries), app)
    ensures app in Stored(entries) ==> Stored(entries)[app] == Read(Tokens(entries), app)
    ensures app !in Stored(entries) ==> Read(Tokens(entries), app) == []
  {
    if entries != [] {
      StoredAt(entries[1..], app);
    }
  }

  lemma WriteKeeps(d: Document, app: Bytes, data: Bytes)
    requires Kept(d)
    ensures Kept(Written(d, app, data))
  {
  }

  lemma DeleteKeeps(d: Document, app: Bytes)
    requires Kept(d)
    ensures Kept(Deleted(d, app))
  {
  }

  lemma SameReads(d: Document, app: Bytes)
    ensures Read(d, app) == Read(Tokens(Entries(d)), app) && Has(d, app) == Has(Tokens(Entries(d)), app)
  {
  }

  /** The guard a caller could check: the application has no entry, or its first entry has data. */
  predicate Replaceable(d: Document, app: Bytes) {
    Has(d, app) ==> Entries(d)[FirstOf(Entries(d), app)].data.Some?
  }

  /** On any file: a write is read back exactly when the application's first entry, if it has one, has data to replace
      (or nothing was written); no other application sees it. */
  lemma WriteReads(d: Document, app: Bytes, data: Bytes, other: Bytes)
    ensures Has(Written(d, app, data), other) <==> Has(d, other) || other == app
    ensures other != app ==> Read(Written(d, app, data), other) == Read(d, other)
    ensures Read(Written(d, app, data), app) == CStr(data) <==> CStr(data) == [] || Replaceable(d, app)
  {
    var entries, i, k := Entries(d), FirstOf(Entries(d), app), FirstOf(Entries(d), other);
    var entries' := Entries(Written(d, app, data));
    if i < |entries| {
      FirstOfIs(entries', other, k);
      FirstOfIs(entries', app, i);
    } else {
      FirstOfIs(entries', app, i);
      if other != app {
        FirstOfIs(entries', other, if k < |entries| then k else k + 1);
      }
    }
  }

  /** A write keeps one entry per application and updates the map at the application. */
  lemma WriteUpdates(d: Document, app: Bytes, data: Bytes)
    requires Kept(d)
    ensures Kept(Written(d, app, data))
    ensures Stored(Entries(Written(d, app, data))) == Stored(Entries(d))[app := CStr(data)]
  {
    WriteKeeps(d, app, data);
    var before, after := Entries(d), Entries(Written(d, app, data));
    forall other ensures other in Stored(after) <==> other in Stored(before) || other == app
      ensures other in Stored(after) ==> Stored(after)[other] == Stored(before)[app := CStr(data)][other]
    {
      StoredAt(before, other);
      StoredAt(after, other);
      WriteReads(d, app, data, other);
      SameReads(d, other);
      SameReads(Written(d, app, data), other);
      hide Stored, Written, Distinct, Read, Has, Complete, Entries;
    }
  }

  /** A write that succeeds and is lost. */
  lemma LostWrite()
    ensures Read(Written(Tokens([Entry(Some(NETFLIX), None)]), NETFLIX, [65]), NETFLIX) == []
  {
  }

  lemma FirstAfterDelete(d: Document, app: Bytes, other: Bytes)
    requires other != app
    ensures var i, k, after := FirstOf(Entries(d), app), FirstOf(Entries(d), other), Entries(Deleted(d, app));
      FirstOf(after, other) == if i < k && i < |Entries(d)| then k - 1 else k
  {
    var i, k, after := FirstOf(Entries(d), app), FirstOf(Entries(d), other), Entries(Deleted(d, app));
    if i < |Entries(d)| {
      hide FirstOf;
      FirstOfIs(after, other, if k > i then k - 1 else k);
    }
  }

  /** On any file, a deletion leaves the other applications alone. */
  lemma DeleteReads(d: Document, app: Bytes, other: Bytes)
    ensures other != app ==> Has(Deleted(d, app), other) == Has(d, other)
    ensures other != app ==> Read(Deleted(d, app), other) == Read(d, other)
  {
    if other != app {
      FirstAfterDelete(d, app, other);
    }
  }

  ghost predicate AtMostOne(entries: seq<Entry>, app: Bytes) {
    forall i, j :: 0 <= i < j < |entries| ==> !(entries[i].name == Some(app) && entries[j].name == Some(app))
  }

  /** On any file, the application itself is gone exactly when it had at most one entry. */
  lemma DeleteExact(d: Document, app: Bytes)
    ensures !Has(Deleted(d, app), app) <==> AtMostOne(Entries(d), app)
  {
    var entries, i := Entries(d), FirstOf(Entries(d), app);
    if i < |entries| {
      var after := Entries(Deleted(d, app));
      var again := FirstOf(after, app);
      if again < |after| {
        assert again >= i && entries[again + 1].name == Some(app);
      } else {
        forall p, q | 0 <= p < q < |entries| && entries[p].name == Some(app) ensures entries[q].name != Some(app) {
          assert i <= p && after[q - 1] == entries[q];
        }
      }
    }
  }

  /** A deletion keeps one entry per application and removes the application from the map. */
  lemma DeleteRemoves(d: Document, app: Bytes)
    requires Kept(d)
    ensures Kept(Deleted(d, app))
    ensures Stored(Entries(Deleted(d, app))) == Stored(Entries(d)) - {app}
  {
    DeleteKeeps(d, app);
    DeleteExact(d, app);
    var before, after := Entries(d), Entries(Deleted(d, app));
    forall other ensures other in Stored(after) <==> other in Stored(before) && other != app
      ensures other in Stored(after) ==> Stored(after)[other] == Stored(before)[other]
    {
      StoredAt(before, other);
      StoredAt(after, other);
      DeleteReads(d, app, other);
      SameReads(d, other);
      SameReads(Deleted(d, app), other);
      hide Stored, Deleted, Read, Has, Complete, Entries;
    }
  }

  // ------------------------------------------------------- every run of the calls

  /** Getting after a successful set gives the token back, whatever the file held, exactly when the set had an entry to
      replace or could add one. */
  lemma GetAfterSet(c: Crypto, d: Document, token: Bytes)
    requires Lawful(c) && token != []
    ensures Got(c, AfterCall(c, d, Set(NETFLIX, token, true, true)), NETFLIX) == token <==> Replaceable(d, NETFLIX)
  {
    hide Lawful, Sealed, Opened, CStr;
    SealedOpens(c, token);
    SealedIsWhole(c, token);
    WriteReads(d, NETFLIX, Sealed(c, token), NETFLIX);
  }

  /** after is before without entry i, the first of the application. */
  predicate FirstRemoved(before: seq<Entry>, after: seq<Entry>, app: Bytes, i: nat) {
    && i < |before| && before[i].name == Some(app) && (forall j :: 0 <= j < i ==> before[j].name != Some(app))
    && after == before[..i] + before[i + 1..]
  }

  /** An enabled deletion on a writable file: exactly when the application has an entry the first one is removed, and
      nothing else changes; the token and every entry are gone exactly when there was at most one. */
  lemma AfterDeletion(c: Crypto, d: Document)
    ensures var d' := AfterCall(c, d, Delete(NETFLIX, true, true));
      && (HasEntry(d, NETFLIX) <==> exists i: nat :: FirstRemoved(Entries(d), Entries(d'), NETFLIX, i))
      && (!HasEntry(d, NETFLIX) ==> d' == d)
      && (Got(c, d', NETFLIX) == [] && !HasEntry(d', NETFLIX) <==> AtMostOne(Entries(d), NETFLIX))
  {
    TookExactly(d, Delete(NETFLIX, true, true));
    var d' := AfterCall(c, d, Delete(NETFLIX, true, true));
    TookExactly(d', Delete(NETFLIX, true, true));
    DeleteExact(d, NETFLIX);
    if HasEntry(d, NETFLIX) {
      assert FirstRemoved(Entries(d), Entries(d'), NETFLIX, FirstOf(Entries(d), NETFLIX));
    }
  }

  function FileAt(c: Crypto, d: Document, calls: seq<Call>, n: nat): Document
    requires n <= |calls|
  {
    if n == 0 then d else AfterCall(c, FileAt(c, d, calls, n - 1), calls[n - 1])
  }

  /** The token of the last successful call among the first n: empty if that was a deletion. */
  function LastToken(c: Crypto, d: Document, calls: seq<Call>, n: nat): Option<Bytes>
    requires n <= |calls|
  {
    if n == 0 then None
    else if !Took(FileAt(c, d, calls, n - 1), calls[n - 1]) then LastToken(c, d, calls, n - 1)
    else if calls[n - 1].Set? then Some(calls[n - 1].token)
    else Some([])
  }

  lemma KeptReplaceable(d: Document)
    requires Kept(d)
    ensures Replaceable(d, NETFLIX)
  {
  }

  lemma DeletedReadsNothing(d: Document)
    requires Kept(d)
    ensures Read(Deleted(d, NETFLIX), NETFLIX) == []
  {
  }

  /** Over every run of set and delete calls, failed ones included, on a file with one complete entry per application:
      get returns the token last set, or nothing once it was deleted, and other applications' entries stay as they
      were. */
  lemma {:induction false} RunReads(c: Crypto, d: Document, calls: seq<Call>, n: nat, other: Bytes)
    requires Lawful(c) && Kept(d) && n <= |calls|
    ensures Kept(FileAt(c, d, calls, n))
    ensures LastToken(c, d, calls, n).Some? ==>
      Got(c, FileAt(c, d, calls, n), NETFLIX) == LastToken(c, d, calls, n).value
    ensures LastToken(c, d, calls, n).None? ==> FileAt(c, d, calls, n) == d
    ensures other != NETFLIX ==> Read(FileAt(c, d, calls, n), other) == Read(d, other)
  {
    hide Lawful, Sealed, Opened, Kept, Written, Deleted, Read, Has, CStr;
    if n > 0 {
      RunReads(c, d, calls, n - 1, other);
      var before, call := FileAt(c, d, calls, n - 1), calls[n - 1];
      if Took(before, call) {
        if call.Set? {
          KeptReplaceable(before);
          GetAfterSet(c, before, call.token);
          WriteKeeps(before, NETFLIX, Sealed(c, call.token));
          WriteReads(before, NETFLIX, Sealed(c, call.token), other);
        } else {
          DeleteKeeps(before, NETFLIX);
          DeleteReads(before, NETFLIX, other);
          DeletedReadsNothing(before);
        }
      }
    }
  }
}
