/** Groups of processes under their leaders, the rows of a report, and sums over them.  lead[i] is the leader of
    process i, if it has one. */
module Groups {
  import opened Wrappers

  /** Every leader is a process that leads itself. */
  ghost predicate SelfLed(lead: seq<Option<nat>>) {
    forall i :: 0 <= i < |lead| && lead[i].Some? ==>
      lead[i].value < |lead| && lead[lead[i].value] == lead[i]
  }

  predicate IsLeader(lead: seq<Option<nat>>, l: nat) {
    l < |lead| && lead[l] == Some(l)
  }

  /** The members of l's group among the first k processes, in table order. */
  function Members(lead: seq<Option<nat>>, l: nat, k: nat): (ms: seq<nat>)
    requires k <= |lead|
    ensures forall m: nat :: m in ms <==> m < k && lead[m] == Some(l)
    ensures forall j :: 0 <= j < |ms| ==> ms[j] < k
  {
    if k == 0 then []
    else if lead[k - 1] == Some(l) then Members(lead, l, k - 1) + [k - 1]
    else Members(lead, l, k - 1)
  }

  /** The members in ms other than the leader; only a report with followers lists them. */
  function Followers(listed: bool, l: nat, ms: seq<nat>): (fs: seq<nat>)
    ensures forall f: nat :: f in fs <==> f in ms && listed && f != l
  {
    if |ms| == 0 then []
    else
      var m := ms[|ms| - 1];
      var fs := Followers(listed, l, ms[..|ms| - 1]);
      assert ms == ms[..|ms| - 1] + [m];
      if listed && m != l then fs + [m] else fs
  }

  /** The rows of leader l: the listed members of its group, then l itself. */
  function GroupRows(lead: seq<Option<nat>>, listed: bool, l: nat): (rows: seq<nat>)
    requires IsLeader(lead, l)
    ensures forall r: nat :: r in rows <==> r < |lead| && lead[r] == Some(l) && (listed || r == l)
    ensures forall j :: 0 <= j < |rows| ==> rows[j] < |lead|
  {
    var rows := Followers(listed, l, Members(lead, l, |lead|)) + [l];
    assert forall j :: 0 <= j < |rows| ==> rows[j] in rows;
    rows
  }

  /** The rows of the leaders below k, by ascending leader. */
  function Rows(lead: seq<Option<nat>>, listed: bool, k: nat): (rows: seq<nat>)
    requires k <= |lead|
    ensures forall j :: 0 <= j < |rows| ==> rows[j] < |lead|
  {
    if k == 0 then []
    else if IsLeader(lead, k - 1) then Rows(lead, listed, k - 1) + GroupRows(lead, listed, k - 1)
    else Rows(lead, listed, k - 1)
  }

  /** A process has a row exactly when it leads a group, or is in one and followers are listed. */
  lemma {:induction false} RowsContents(lead: seq<Option<nat>>, listed: bool, k: nat)
    requires k <= |lead| && SelfLed(lead)
    ensures forall r: nat :: r in Rows(lead, listed, k) <==>
      r < |lead| && lead[r].Some? && lead[r].value < k && (listed || lead[r] == Some(r))
  {
    if k > 0 {
      RowsContents(lead, listed, k - 1);
    }
  }

  ghost predicate Distinct(rows: seq<nat>) {
    forall a, b :: 0 <= a < b < |rows| ==> rows[a] != rows[b]
  }

  lemma {:induction false} MembersDistinct(lead: seq<Option<nat>>, l: nat, k: nat)
    requires k <= |lead|
    ensures Distinct(Members(lead, l, k))
  {
    if k > 0 {
      MembersDistinct(lead, l, k - 1);
    }
  }

  lemma {:induction false} FollowersDistinct(listed: bool, l: nat, ms: seq<nat>)
    requires Distinct(ms)
    ensures Distinct(Followers(listed, l, ms))
  {
    if |ms| > 0 {
      var init, m := ms[..|ms| - 1], ms[|ms| - 1];
      FollowersDistinct(listed, l, init);
      var fs := Followers(listed, l, init);
      forall a | 0 <= a < |fs| ensures fs[a] != m {
        assert fs[a] in init;
      }
    }
  }

  lemma DistinctConcat(xs: seq<nat>, ys: seq<nat>)
    requires Distinct(xs) && Distinct(ys) && forall x: nat :: x in xs ==> x !in ys
    ensures Distinct(xs + ys)
  {
    forall a, b | 0 <= a < b < |xs + ys| ensures (xs + ys)[a] != (xs + ys)[b] {
      if a < |xs| <= b {
        assert xs[a] in xs && ys[b - |xs|] in ys;
      }
    }
  }

  lemma GroupRowsDistinct(lead: seq<Option<nat>>, listed: bool, l: nat)
    requires IsLeader(lead, l)
    ensures Distinct(GroupRows(lead, listed, l))
  {
    var ms := Members(lead, l, |lead|);
    MembersDistinct(lead, l, |lead|);
    FollowersDistinct(listed, l, ms);
    DistinctConcat(Followers(listed, l, ms), [l]);
  }

  /** No process has two rows. */
  lemma {:induction false} RowsDistinct(lead: seq<Option<nat>>, listed: bool, k: nat)
    requires k <= |lead| && SelfLed(lead)
    ensures Distinct(Rows(lead, listed, k))
  {
    if k > 0 {
      RowsDistinct(lead, listed, k - 1);
      if IsLeader(lead, k - 1) {
        RowsContents(lead, listed, k - 1);
        GroupRowsDistinct(lead, listed, k - 1);
        hide Distinct, GroupRows, SelfLed;
        DistinctConcat(Rows(lead, listed, k - 1), GroupRows(lead, listed, k - 1));
      }
    }
  }

  // ------------------------------------------------------- sums

  /** Sum of a figure over a list of processes. */
  function Total(use: seq<nat>, ms: seq<nat>): nat
    requires forall j :: 0 <= j < |ms| ==> ms[j] < |use|
  {
    if |ms| == 0 then 0 else Total(use, ms[..|ms| - 1]) + use[ms[|ms| - 1]]
  }

  lemma TakeOneMore(ms: seq<nat>, n: nat)
    requires n < |ms|
    ensures ms[..n + 1] == ms[..n] + [ms[n]]
  {
  }

  lemma TotalSnoc(use: seq<nat>, ms: seq<nat>, m: nat)
    requires m < |use| && forall j :: 0 <= j < |ms| ==> ms[j] < |use|
    ensures Total(use, ms + [m]) == Total(use, ms) + use[m]
  {
  }

  /** The figure a report shows for process i: the total of its group for a leader, its own otherwise. */
  function Shown(lead: seq<Option<nat>>, use: seq<nat>, i: nat): nat
    requires i < |lead| == |use|
  {
    if IsLeader(lead, i) then Total(use, Members(lead, i, |lead|)) else use[i]
  }

  /** Sum over the leaders below n of their members among the first k processes. */
  function LeaderTotals(lead: seq<Option<nat>>, use: seq<nat>, n: nat, k: nat): nat
    requires n <= |lead| == |use| && k <= |lead|
  {
    if n == 0 then 0
    else LeaderTotals(lead, use, n - 1, k)
         + if IsLeader(lead, n - 1) then Total(use, Members(lead, n - 1, k)) else 0
  }

  /** Sum over the first k processes that have a leader. */
  function AttributedTotal(lead: seq<Option<nat>>, use: seq<nat>, k: nat): nat
    requires k <= |lead| == |use|
  {
    if k == 0 then 0
    else AttributedTotal(lead, use, k - 1) + if lead[k - 1].Some? then use[k - 1] else 0
  }

  lemma {:induction false} LeaderTotalsStep(lead: seq<Option<nat>>, use: seq<nat>, n: nat, k: nat)
    requires n <= |lead| == |use| && k < |lead| && SelfLed(lead)
    ensures LeaderTotals(lead, use, n, k + 1) == LeaderTotals(lead, use, n, k)
      + if lead[k].Some? && lead[k].value < n then use[k] else 0
  {
    if n > 0 {
      LeaderTotalsStep(lead, use, n - 1, k);
      if lead[k] == Some(n - 1) {
        TotalSnoc(use, Members(lead, n - 1, k), k);
      }
    }
  }

  lemma {:induction false} NoMembersYet(lead: seq<Option<nat>>, use: seq<nat>, n: nat)
    requires n <= |lead| == |use|
    ensures LeaderTotals(lead, use, n, 0) == 0
  {
    if n > 0 {
      NoMembersYet(lead, use, n - 1);
    }
  }

  /** Usage is conserved: the leaders' group totals together are the sum over exactly the processes that have a
      leader. */
  lemma {:induction false} UsageConserved(lead: seq<Option<nat>>, use: seq<nat>, k: nat)
    requires k <= |lead| == |use| && SelfLed(lead)
    ensures LeaderTotals(lead, use, |lead|, k) == AttributedTotal(lead, use, k)
  {
    if k == 0 {
      NoMembersYet(lead, use, |lead|);
    } else {
      UsageConserved(lead, use, k - 1);
      LeaderTotalsStep(lead, use, |lead|, k - 1);
    }
  }

  // ------------------------------------------------------- output columns

  /** One output column: the entries of src at the rows. */
  function Column<T>(src: seq<T>, rows: seq<nat>): (col: seq<T>)
    requires forall j :: 0 <= j < |rows| ==> rows[j] < |src|
    ensures |col| == |rows| && forall j :: 0 <= j < |rows| ==> col[j] == src[rows[j]]
  {
    seq(|rows|, j requires 0 <= j < |rows| => src[rows[j]])
  }

  lemma ColumnStep<T>(src: seq<T>, rows: seq<nat>, fs: seq<nat>, l: nat)
    requires forall j :: 0 <= j < |rows| ==> rows[j] < |src|
    requires forall j :: 0 <= j < |fs| ==> fs[j] < |src|
    requires l < |src|
    ensures Column(src, rows + (fs + [l])) == Column(src, rows) + (Column(src, fs) + [src[l]])
  {
  }

  /** The entries of a column that stand in the rows of leaders, added up. */
  function LeaderEntries(lead: seq<Option<nat>>, rows: seq<nat>, col: seq<nat>): nat
    requires |rows| == |col|
  {
    if |rows| == 0 then 0
    else
      var n := |rows| - 1;
      LeaderEntries(lead, rows[..n], col[..n]) + if IsLeader(lead, rows[n]) then col[n] else 0
  }

  lemma {:induction false} EntriesConcat(lead: seq<Option<nat>>, rows: seq<nat>, col: seq<nat>,
                                         more: seq<nat>, ext: seq<nat>)
    requires |rows| == |col| && |more| == |ext|
    ensures LeaderEntries(lead, rows + more, col + ext) ==
      LeaderEntries(lead, rows, col) + LeaderEntries(lead, more, ext)
  {
    if |more| == 0 {
      assert rows + more == rows && col + ext == col;
    } else {
      var n := |more| - 1;
      EntriesConcat(lead, rows, col, more[..n], ext[..n]);
      assert (rows + more)[..|rows| + n] == rows + more[..n] && (col + ext)[..|rows| + n] == col + ext[..n];
    }
  }

  /** Rows that are no leader's add nothing. */
  lemma {:induction false} FollowersAddNothing(lead: seq<Option<nat>>, rows: seq<nat>, col: seq<nat>)
    requires |rows| == |col| && forall j :: 0 <= j < |rows| ==> !IsLeader(lead, rows[j])
    ensures LeaderEntries(lead, rows, col) == 0
  {
    if |rows| > 0 {
      FollowersAddNothing(lead, rows[..|rows| - 1], col[..|rows| - 1]);
    }
  }

  lemma GroupAdds(lead: seq<Option<nat>>, listed: bool, shown: seq<nat>, l: nat)
    requires IsLeader(lead, l) && |shown| == |lead|
    ensures LeaderEntries(lead, GroupRows(lead, listed, l), Column(shown, GroupRows(lead, listed, l))) == shown[l]
  {
    var fs := Followers(listed, l, Members(lead, l, |lead|));
    assert forall j :: 0 <= j < |fs| ==> fs[j] in fs;
    FollowersAddNothing(lead, fs, Column(shown, fs));
    EntriesConcat(lead, fs, Column(shown, fs), [l], [shown[l]]);
    assert Column(shown, fs + [l]) == Column(shown, fs) + [shown[l]];
    assert LeaderEntries(lead, [l], [shown[l]]) == LeaderEntries(lead, [], []) + shown[l];
  }

  lemma ColumnConcat<T>(src: seq<T>, rows: seq<nat>, more: seq<nat>)
    requires forall j :: 0 <= j < |rows| ==> rows[j] < |src|
    requires forall j :: 0 <= j < |more| ==> more[j] < |src|
    ensures Column(src, rows + more) == Column(src, rows) + Column(src, more)
  {
  }

  /** The sum over the leaders' entries in the rows of the leaders below k. */
  function EntriesBelow(lead: seq<Option<nat>>, listed: bool, shown: seq<nat>, k: nat): nat
    requires k <= |lead| == |shown|
  {
    LeaderEntries(lead, Rows(lead, listed, k), Column(shown, Rows(lead, listed, k)))
  }

  lemma EntriesStep(lead: seq<Option<nat>>, listed: bool, shown: seq<nat>, k: nat)
    requires k < |lead| == |shown|
    ensures EntriesBelow(lead, listed, shown, k + 1) ==
      EntriesBelow(lead, listed, shown, k) + if IsLeader(lead, k) then shown[k] else 0
  {
    hide LeaderEntries, GroupRows, Column;
    if IsLeader(lead, k) {
      var rows, more := Rows(lead, listed, k), GroupRows(lead, listed, k);
      GroupAdds(lead, listed, shown, k);
      EntriesConcat(lead, rows, Column(shown, rows), more, Column(shown, more));
      ColumnConcat(shown, rows, more);
    }
  }

  /** In a column that shows each leader with its group's total, the leaders' entries add up to the group totals. */
  lemma {:induction false} EntriesAreTotals(lead: seq<Option<nat>>, listed: bool, use: seq<nat>, shown: seq<nat>,
                                            k: nat)
    requires k <= |lead| == |use| == |shown|
    requires forall i :: 0 <= i < |lead| ==> shown[i] == Shown(lead, use, i)
    ensures EntriesBelow(lead, listed, shown, k) == LeaderTotals(lead, use, k, |lead|)
  {
    if k > 0 {
      EntriesAreTotals(lead, listed, use, shown, k - 1);
      EntriesStep(lead, listed, shown, k - 1);
    }
  }

  /** Reading a figure by position, as the callers do: the entry at the first position that holds pid, 0 if there
      is none. */
  function Lookup(pids: seq<nat>, vals: seq<nat>, pid: nat): nat
    requires |pids| == |vals|
  {
    if |pids| == 0 then 0
    else if pids[0] == pid then vals[0]
    else Lookup(pids[1..], vals[1..], pid)
  }

  lemma {:induction false} LookupAt(pids: seq<nat>, vals: seq<nat>, k: nat)
    requires k < |pids| == |vals| && Distinct(pids)
    ensures Lookup(pids, vals, pids[k]) == vals[k]
  {
    if k > 0 {
      LookupAt(pids[1..], vals[1..], k - 1);
    }
  }

  lemma {:induction false} LookupMissing(pids: seq<nat>, vals: seq<nat>, pid: nat)
    requires |pids| == |vals| && pid !in pids
    ensures Lookup(pids, vals, pid) == 0
  {
    if |pids| > 0 {
      LookupMissing(pids[1..], vals[1..], pid);
    }
  }

  /** Looking a process up in the columns of a report finds its own entry, or 0 when it has no row. */
  lemma ColumnLookup(pids: seq<nat>, src: seq<nat>, rows: seq<nat>, i: nat)
    requires |pids| == |src| && i < |pids| && Distinct(pids) && Distinct(rows)
    requires forall j :: 0 <= j < |rows| ==> rows[j] < |pids|
    ensures Distinct(Column(pids, rows))
    ensures Lookup(Column(pids, rows), Column(src, rows), pids[i]) == if i in rows then src[i] else 0
  {
    var col := Column(pids, rows);
    forall a, b | 0 <= a < b < |col| ensures col[a] != col[b] {
      assert rows[a] != rows[b];
    }
    if i in rows {
      var k :| 0 <= k < |rows| && rows[k] == i;
      LookupAt(col, Column(src, rows), k);
    } else {
      forall j | 0 <= j < |col| ensures col[j] != pids[i] {
        assert rows[j] in rows;
      }
      LookupMissing(col, Column(src, rows), pids[i]);
    }
  }
}
