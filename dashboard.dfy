/**
 * The dashboard (`DashboardWidget.update_dashboard`): the total message count
 * over all accounts, one unread-count label per account, and the list of
 * "account: subject" entries for each account's five most recent messages.
 */
module Dashboard {
  import opened Util
  import opened Provider
  import opened Headers

  /** The label with object name `unread_{account}` and text `{account}: {unread} unread`. */
  datatype UnreadLabel = UnreadLabel(account: string, unread: int)

  /** Every account in the iteration order has a service. */
  ghost predicate Covers(order: seq<string>, svcs: map<string, Service>)
  {
    forall i | 0 <= i < |order| :: order[i] in svcs
  }

  /** An account's total: `resultSizeEstimate` of an unfiltered list, 0 when absent. */
  function TotalOf(svc: Service): int
  {
    Estimate(svc.List(TotalRequest))
  }

  /** An account's unread count: `resultSizeEstimate` of an `is:unread` list, 0 when absent. */
  function UnreadOf(svc: Service): int
  {
    Estimate(svc.List(UnreadRequest))
  }

  /** The sum of the accounts' totals, added up in the given order. */
  function Total(order: seq<string>, svcs: map<string, Service>): int
    requires Covers(order, svcs)
  {
    if order == [] then 0
    else Total(order[..|order| - 1], svcs) + TotalOf(svcs[order[|order| - 1]])
  }

  lemma {:induction false} TotalAppend(a: seq<string>, b: seq<string>, svcs: map<string, Service>)
    requires Covers(a, svcs) && Covers(b, svcs)
    ensures Covers(a + b, svcs)
    ensures Total(a + b, svcs) == Total(a, svcs) + Total(b, svcs)
  {
    if b == [] {
      assert a + b == a;
    } else {
      var n := |b| - 1;
      assert (a + b)[..|a + b| - 1] == a + b[..n];
      TotalAppend(a, b[..n], svcs);
    }
  }

  /** Taking one account out of the order takes its total out of the sum. */
  lemma TotalRemove(o: seq<string>, j: nat, svcs: map<string, Service>)
    requires Covers(o, svcs) && j < |o|
    ensures Covers(o[..j] + o[j + 1..], svcs)
    ensures Total(o, svcs) == Total(o[..j] + o[j + 1..], svcs) + TotalOf(svcs[o[j]])
  {
    assert o == (o[..j] + [o[j]]) + o[j + 1..];
    TotalAppend(o[..j] + [o[j]], o[j + 1..], svcs);
    TotalAppend(o[..j], [o[j]], svcs);
    TotalAppend(o[..j], o[j + 1..], svcs);
  }

  /** Taking the element at j out of a sequence takes one copy of it out of its multiset. */
  lemma MultisetTakeOut(s: seq<string>, j: nat)
    requires j < |s|
    ensures multiset(s) == multiset(s[..j] + s[j + 1..]) + multiset{s[j]}
  {
    assert s == s[..j] + [s[j]] + s[j + 1..];
  }

  lemma MultisetCancel(a: multiset<string>, b: multiset<string>, x: string)
    requires a + multiset{x} == b + multiset{x}
    ensures a == b
  {
    forall y ensures a[y] == b[y] {
      assert (a + multiset{x})[y] == (b + multiset{x})[y];
    }
  }

  /** The total does not depend on the order the accounts are visited in. */
  lemma {:induction false} TotalPermutation(o1: seq<string>, o2: seq<string>, svcs: map<string, Service>)
    requires Covers(o1, svcs) && Covers(o2, svcs)
    requires multiset(o1) == multiset(o2)
    ensures Total(o1, svcs) == Total(o2, svcs)
    decreases |o1|
  {
    if o1 != [] {
      var n := |o1| - 1;
      var x := o1[n];
      MultisetTakeOut(o1, n);
      assert o1[..n] + o1[n + 1..] == o1[..n];
      assert x in multiset(o2);
      var j :| 0 <= j < |o2| && o2[j] == x;
      var rest := o2[..j] + o2[j + 1..];
      MultisetTakeOut(o2, j);
      MultisetCancel(multiset(o1[..n]), multiset(rest), x);
      TotalPermutation(o1[..n], rest, svcs);
      TotalRemove(o2, j, svcs);
    }
  }

  /** The account names of the labels, in layout order. */
  function Accounts(labels: seq<UnreadLabel>): seq<string>
  {
    seq(|labels|, i requires 0 <= i < |labels| => labels[i].account)
  }

  /**
   * `findChild(QLabel, f"unread_{account}")`: the position of the first label for
   * the account, or |labels| when there is none.
   */
  function FindLabel(labels: seq<UnreadLabel>, account: string): (k: nat)
    ensures k <= |labels|
    ensures k < |labels| ==> labels[k].account == account
    ensures forall j | 0 <= j < k :: labels[j].account != account
  {
    if labels == [] then 0
    else if labels[0].account == account then 0
    else 1 + FindLabel(labels[1..], account)
  }

  /** Set the account's label to the new count if it exists, add a label otherwise. */
  function Upsert(labels: seq<UnreadLabel>, account: string, unread: int): seq<UnreadLabel>
  {
    var k := FindLabel(labels, account);
    if k < |labels| then labels[k := UnreadLabel(account, unread)]
    else labels + [UnreadLabel(account, unread)]
  }

  /**
   * After an upsert the account's first label holds the new count; every other
   * label stays where it was; a label is appended exactly when the account had
   * none, so labels stay one per account.
   */
  lemma UpsertSpec(labels: seq<UnreadLabel>, account: string, unread: int)
    ensures var r := Upsert(labels, account, unread);
      && Accounts(r) == (if account in Accounts(labels) then Accounts(labels) else Accounts(labels) + [account])
      && (Distinct(Accounts(labels)) ==> Distinct(Accounts(r)))
      && FindLabel(r, account) < |r| && r[FindLabel(r, account)] == UnreadLabel(account, unread)
      && (forall i | 0 <= i < |r| && i != FindLabel(r, account) :: i < |labels| && r[i] == labels[i])
  {
    var k := FindLabel(labels, account);
    var r := Upsert(labels, account, unread);
    if k < |labels| {
      assert account in Accounts(labels) by { assert Accounts(labels)[k] == account; }
      assert forall j | 0 <= j < |r| :: r[j].account == labels[j].account;
      assert Accounts(r) == Accounts(labels);
      FindLabelAgrees(labels, r, account);
    } else {
      assert account !in Accounts(labels) by {
        forall i | 0 <= i < |labels| ensures Accounts(labels)[i] != account {}
      }
      assert Accounts(r) == Accounts(labels) + [account];
      assert Distinct(Accounts(labels)) ==> Distinct(Accounts(r)) by {
        assert forall j | 0 <= j < |labels| :: Accounts(r)[j] == Accounts(labels)[j];
      }
      assert FindLabel(r, account) == |labels| by {
        assert forall j | 0 <= j < |labels| :: r[j] == labels[j];
        assert r[|labels|].account == account;
      }
    }
  }

  /** The labels after the counting loop has upserted each account in order. */
  function Relabelled(labels: seq<UnreadLabel>, order: seq<string>, svcs: map<string, Service>): seq<UnreadLabel>
    requires Covers(order, svcs)
  {
    if order == [] then labels
    else
      var n := |order| - 1;
      Upsert(Relabelled(labels, order[..n], svcs), order[n], UnreadOf(svcs[order[n]]))
  }

  /** findChild only looks at the labels up to the first match. */
  lemma {:induction false} FindLabelAgrees(a: seq<UnreadLabel>, b: seq<UnreadLabel>, x: string)
    requires FindLabel(a, x) < |a| && FindLabel(a, x) < |b|
    requires forall j | 0 <= j <= FindLabel(a, x) :: b[j].account == a[j].account
    ensures FindLabel(b, x) == FindLabel(a, x)
  {
    if a[0].account != x {
      assert forall j | 0 <= j <= FindLabel(a[1..], x) :: b[1..][j].account == a[1..][j].account by {
        assert forall j | 0 <= j <= FindLabel(a[1..], x) :: b[1..][j] == b[j + 1] && a[1..][j] == a[j + 1];
      }
      FindLabelAgrees(a[1..], b[1..], x);
    }
  }

  /** An upsert leaves the first label of every other account where it was. */
  lemma UpsertKeepsOthers(labels: seq<UnreadLabel>, account: string, unread: int, other: string)
    requires other != account && FindLabel(labels, other) < |labels|
    ensures FindLabel(Upsert(labels, account, unread), other) == FindLabel(labels, other)
    ensures Upsert(labels, account, unread)[FindLabel(labels, other)] == labels[FindLabel(labels, other)]
  {
    var r := Upsert(labels, account, unread);
    var ka := FindLabel(labels, account);
    if ka < |labels| {
      assert forall j | 0 <= j < |labels| :: r[j].account == labels[j].account;
    } else {
      assert forall j | 0 <= j < |labels| :: r[j] == labels[j];
    }
    FindLabelAgrees(labels, r, other);
  }

  /** The counting loop keeps labels one per account. */
  lemma {:induction false} RelabelledDistinct(labels: seq<UnreadLabel>, order: seq<string>, svcs: map<string, Service>)
    requires Covers(order, svcs) && Distinct(Accounts(labels))
    ensures Distinct(Accounts(Relabelled(labels, order, svcs)))
  {
    if order != [] {
      var n := |order| - 1;
      RelabelledDistinct(labels, order[..n], svcs);
      UpsertSpec(Relabelled(labels, order[..n], svcs), order[n], UnreadOf(svcs[order[n]]));
    }
  }

  /** After the counting loop, findChild finds each visited account's label, holding its unread count. */
  lemma {:induction false} RelabelledCounts(labels: seq<UnreadLabel>, order: seq<string>, svcs: map<string, Service>, a: string)
    requires Covers(order, svcs) && a in order
    ensures FindLabel(Relabelled(labels, order, svcs), a) < |Relabelled(labels, order, svcs)|
    ensures Relabelled(labels, order, svcs)[FindLabel(Relabelled(labels, order, svcs), a)] == UnreadLabel(a, UnreadOf(svcs[a]))
  {
    var n := |order| - 1;
    UpsertSpec(Relabelled(labels, order[..n], svcs), order[n], UnreadOf(svcs[order[n]]));
    if a != order[n] {
      assert a in order[..n] by {
        var i :| 0 <= i < |order| && order[i] == a;
        assert order[..n][i] == a;
      }
      RelabelledCounts(labels, order[..n], svcs, a);
      UpsertKeepsOthers(Relabelled(labels, order[..n], svcs), order[n], UnreadOf(svcs[order[n]]), a);
    }
  }

  /** Visiting only accounts that already have labels adds no label and moves none. */
  lemma {:induction false} RelabelledKeepsAccounts(labels: seq<UnreadLabel>, order: seq<string>, svcs: map<string, Service>)
    requires Covers(order, svcs)
    requires forall i | 0 <= i < |order| :: order[i] in Accounts(labels)
    ensures Accounts(Relabelled(labels, order, svcs)) == Accounts(labels)
  {
    if order != [] {
      var n := |order| - 1;
      assert forall i | 0 <= i < n :: order[..n][i] == order[i];
      RelabelledKeepsAccounts(labels, order[..n], svcs);
      UpsertSpec(Relabelled(labels, order[..n], svcs), order[n], UnreadOf(svcs[order[n]]));
    }
  }

  /**
   * Labels are added in the order accounts are first visited: when the labels
   * name a prefix of a duplicate-free order, afterwards they name all of it.
   */
  lemma {:induction false} RelabelledFollowsOrder(labels: seq<UnreadLabel>, order: seq<string>, svcs: map<string, Service>)
    requires Covers(order, svcs) && Distinct(order)
    requires Accounts(labels) <= order
    ensures Accounts(Relabelled(labels, order, svcs)) == order
  {
    if |Accounts(labels)| == |order| {
      assert Accounts(labels) == order;
      assert forall i | 0 <= i < |order| :: order[i] == Accounts(labels)[i];
      RelabelledKeepsAccounts(labels, order, svcs);
    } else {
      var n := |order| - 1;
      assert Accounts(labels) <= order[..n];
      assert Distinct(order[..n]) by {
        assert forall i | 0 <= i < n :: order[..n][i] == order[i];
      }
      RelabelledFollowsOrder(labels, order[..n], svcs);
      UpsertSpec(Relabelled(labels, order[..n], svcs), order[n], UnreadOf(svcs[order[n]]));
      assert order[n] !in order[..n];
      assert order == order[..n] + [order[n]];
    }
  }

  /**
   * When the labels end up in the order of the accounts, label i shows the
   * unread count of account i.
   */
  lemma RelabelledInOrder(labels: seq<UnreadLabel>, order: seq<string>, svcs: map<string, Service>)
    requires Covers(order, svcs) && Distinct(order)
    requires Accounts(Relabelled(labels, order, svcs)) == order
    ensures forall i | 0 <= i < |order| ::
      Relabelled(labels, order, svcs)[i] == UnreadLabel(order[i], UnreadOf(svcs[order[i]]))
  {
    var r := Relabelled(labels, order, svcs);
    forall i | 0 <= i < |order|
      ensures r[i] == UnreadLabel(order[i], UnreadOf(svcs[order[i]]))
    {
      RelabelledCounts(labels, order, svcs, order[i]);
      var k := FindLabel(r, order[i]);
      assert Accounts(r)[k] == order[i];
    }
  }

  /** The important list as far as the refill loop gets, and whether it got to the end. */
  datatype Partial = Partial(entries: seq<string>, complete: bool)

  /** The entries for one account's retrieved messages: "account: subject". */
  function Entries(account: string, got: seq<Message>): seq<string>
  {
    seq(|got|, i requires 0 <= i < |got| => account + ": " + Subject(got[i]))
  }

  /**
   * The refill loop over the accounts in order: for each, the five most recent
   * messages; a get that raises ends the loop and the update.
   */
  function Important(order: seq<string>, svcs: map<string, Service>): Partial
    requires Covers(order, svcs)
  {
    if order == [] then Partial([], true)
    else
      var n := |order| - 1;
      var before := Important(order[..n], svcs);
      if !before.complete then before
      else
        var svc := svcs[order[n]];
        var refs := Refs(svc.List(ImportantRequest));
        var got := Fetched(svc, refs);
        Partial(before.entries + Entries(order[n], got), |got| == |refs|)
  }

  /** One more account in the order: its entries follow, unless a get has already raised. */
  lemma ImportantStep(order: seq<string>, i: nat, svcs: map<string, Service>)
    requires Covers(order, svcs) && i < |order|
    ensures Covers(order[..i], svcs) && Covers(order[..i + 1], svcs)
    ensures var before := Important(order[..i], svcs);
      var svc := svcs[order[i]];
      var refs := Refs(svc.List(ImportantRequest));
      var got := Fetched(svc, refs);
      Important(order[..i + 1], svcs) ==
        if !before.complete then before
        else Partial(before.entries + Entries(order[i], got), |got| == |refs|)
  {
    assert order[..i + 1][..i] == order[..i];
    assert order[..i + 1][i] == order[i];
  }

  /** How many messages the five-most-recent listings of the accounts name, summed over the order. */
  function ImportantListed(order: seq<string>, svcs: map<string, Service>): nat
    requires Covers(order, svcs)
  {
    if order == [] then 0
    else
      var n := |order| - 1;
      ImportantListed(order[..n], svcs) + |Refs(svcs[order[n]].List(ImportantRequest))|
  }

  /** Every get the refill loop would make, for every account in the order, succeeds. */
  ghost predicate ImportantGetsSucceed(order: seq<string>, svcs: map<string, Service>)
    requires Covers(order, svcs)
  {
    forall i, j | 0 <= i < |order| && 0 <= j < |Refs(svcs[order[i]].List(ImportantRequest))| ::
      svcs[order[i]].Get(Refs(svcs[order[i]].List(ImportantRequest))[j].id).Some?
  }

  /**
   * The refill gets to the end exactly when every get succeeds, and then it
   * holds one entry per listed message of every account.
   */
  lemma {:induction false} ImportantComplete(order: seq<string>, svcs: map<string, Service>)
    requires Covers(order, svcs)
    ensures Important(order, svcs).complete <==> ImportantGetsSucceed(order, svcs)
    ensures Important(order, svcs).complete ==> |Important(order, svcs).entries| == ImportantListed(order, svcs)
  {
    if order != [] {
      var n := |order| - 1;
      var prefix := order[..n];
      ImportantComplete(prefix, svcs);
      var svc := svcs[order[n]];
      var refs := Refs(svc.List(ImportantRequest));
      FetchedSpec(svc, refs);
      ImportantGetsSucceedStep(order, svcs);
    }
  }

  /** Every get succeeds for the whole order iff it does for all but the last account and for the last. */
  lemma ImportantGetsSucceedStep(order: seq<string>, svcs: map<string, Service>)
    requires Covers(order, svcs) && order != []
    ensures var n := |order| - 1;
      var refs := Refs(svcs[order[n]].List(ImportantRequest));
      ImportantGetsSucceed(order, svcs) <==>
        ImportantGetsSucceed(order[..n], svcs) && forall j | 0 <= j < |refs| :: svcs[order[n]].Get(refs[j].id).Some?
  {
    var n := |order| - 1;
    assert forall i | 0 <= i < n :: order[..n][i] == order[i];
  }

  /** Once a get has raised, later accounts add nothing. */
  lemma {:induction false} ImportantStops(order: seq<string>, m: nat, svcs: map<string, Service>)
    requires Covers(order, svcs) && m <= |order|
    requires !Important(order[..m], svcs).complete
    ensures Important(order, svcs) == Important(order[..m], svcs)
    decreases |order|
  {
    if m < |order| {
      var n := |order| - 1;
      assert order[..n][..m] == order[..m];
      ImportantStops(order[..n], m, svcs);
    } else {
      assert order[..m] == order;
    }
  }

  /** With services that honour maxResults, at most five entries per account. */
  lemma {:induction false} ImportantBounded(order: seq<string>, svcs: map<string, Service>)
    requires Covers(order, svcs)
    requires forall i | 0 <= i < |order| :: HonoursMaxResults(svcs[order[i]])
    ensures |Important(order, svcs).entries| <= ImportantLimit * |order|
  {
    if order != [] {
      var n := |order| - 1;
      ImportantBounded(order[..n], svcs);
      var svc := svcs[order[n]];
      assert HonoursMaxResults(svc);
      assert |Refs(svc.List(ImportantRequest))| <= ImportantLimit;
      FetchedSpec(svc, Refs(svc.List(ImportantRequest)));
    }
  }

  /**
   * The inner refill loop for one account: "account: subject" for each of its
   * five most recent messages, in listing order, and whether every get succeeded.
   */
  method RecentSubjects(account: string, svc: Service) returns (entries: seq<string>, complete: bool)
    ensures var refs := Refs(svc.List(ImportantRequest));
      var got := Fetched(svc, refs);
      entries == Entries(account, got) && complete == (|got| == |refs|)
  {
    var messages := Refs(svc.List(ImportantRequest));
    entries := [];
    FetchedSpec(svc, messages);
    for j := 0 to |messages|
      invariant |entries| == j
      invariant forall k | 0 <= k < j ::
        svc.Get(messages[k].id).Some? && entries[k] == account + ": " + Subject(svc.Get(messages[k].id).value)
    {
      var msg := svc.Get(messages[j].id);
      if msg.None? {
        return entries, false;
      }
      entries := entries + [account + ": " + Subject(msg.value)];
    }
    complete := true;
  }

  class DashboardWidget {
    var totalEmails: int
    var unreadLabels: seq<UnreadLabel>
    var important: seq<string>

    /** Labels are found by object name, so there is at most one per account. */
    ghost predicate Valid()
      reads this`unreadLabels
    {
      Distinct(Accounts(unreadLabels))
    }

    constructor ()
      ensures Valid()
      ensures totalEmails == 0 && unreadLabels == [] && important == []
    {
      totalEmails := 0;
      unreadLabels := [];
      important := [];
    }

    /** `update_dashboard(accounts)`, visiting the accounts in `order`. */
    method Update(order: seq<string>, svcs: map<string, Service>)
      requires Valid() && Covers(order, svcs)
      modifies this
      ensures Valid()
      ensures totalEmails == Total(order, svcs)
      ensures unreadLabels == Relabelled(old(unreadLabels), order, svcs)
      ensures important == Important(order, svcs).entries
    {
      Count(order, svcs);
      RefillImportant(order, svcs);
    }

    /** The first half of `update_dashboard`: add up the totals and upsert each unread label. */
    method Count(order: seq<string>, svcs: map<string, Service>)
      requires Valid() && Covers(order, svcs)
      modifies this`totalEmails, this`unreadLabels
      ensures Valid()
      ensures totalEmails == Total(order, svcs)
      ensures unreadLabels == Relabelled(old(unreadLabels), order, svcs)
    {
      var total := 0;
      for i := 0 to |order|
        invariant Covers(order[..i], svcs)
        invariant total == Total(order[..i], svcs)
        invariant unreadLabels == Relabelled(old(unreadLabels), order[..i], svcs)
      {
        assert order[..i + 1][..i] == order[..i];
        var svc := svcs[order[i]];
        total := total + Estimate(svc.List(TotalRequest));
        var unread := Estimate(svc.List(UnreadRequest));
        unreadLabels := Upsert(unreadLabels, order[i], unread);
      }
      assert order[..|order|] == order;
      totalEmails := total;
      RelabelledDistinct(old(unreadLabels), order, svcs);
    }

    /** The second half of `update_dashboard`: clear the important list and refill it. */
    method RefillImportant(order: seq<string>, svcs: map<string, Service>)
      requires Covers(order, svcs)
      modifies this`important
      ensures important == Important(order, svcs).entries
    {
      important := [];
      for i := 0 to |order|
        invariant Covers(order[..i], svcs)
        invariant Important(order[..i], svcs) == Partial(important, true)
      {
        var entries, complete := RecentSubjects(order[i], svcs[order[i]]);
        ImportantStep(order, i, svcs);
        important := important + entries;
        if !complete {
          // a get raised: the rest of update_dashboard does not run
          ImportantStops(order, i + 1, svcs);
          return;
        }
      }
      assert order[..|order|] == order;
    }
  }
}
