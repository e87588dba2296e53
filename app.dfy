/**
 * The main window (`GmailMonitorApp`) with its widgets reduced to the state they
 * hold: the account registry, the rows of the account and email lists, the two
 * text inputs, the dashboard, the settings and the refresh timer's period.
 * Fetching is synchronous here: a fetch's emissions are appended as it runs.
 */
module App {
  import opened Util
  import opened Provider
  import opened Fetcher
  import opened Display
  import opened Dashboard

  /** `Qt.CheckState.Checked.value`, the state a checkbox reports when ticked. */
  const Checked := 2

  datatype Settings = Settings(
    darkMode: bool,
    fontSize: int,
    refreshInterval: int,  // minutes
    emailsToDisplay: int,
    notificationsEnabled: bool,
    themeColor: string)

  const DefaultSettings := Settings(false, 10, 5, 10, true, "#1a73e8")

  /** The refresh timer's period in milliseconds for an interval in minutes. */
  function PeriodMs(minutes: int): int
  {
    minutes * 60 * 1000
  }

  /** `accounts.items()`: each registered account's service, as the provider answers now. */
  function Services(accounts: map<string, Handle>, provider: Mailboxes): (svcs: map<string, Service>)
    ensures svcs.Keys == accounts.Keys
  {
    map a | a in accounts :: provider(accounts[a])
  }

  /** The email list a refresh builds: each account's rows, one account after another. */
  function Refreshed(order: seq<string>, svcs: map<string, Service>): seq<Item>
    requires Covers(order, svcs)
  {
    if order == [] then []
    else
      var n := |order| - 1;
      Refreshed(order[..n], svcs) + Items(Emitted(order[n], svcs[order[n]]))
  }

  /** The rows of one account, in list order. */
  function RowsOf(items: seq<Item>, account: string): seq<Item>
  {
    if items == [] then []
    else (if items[0].account == account then [items[0]] else []) + RowsOf(items[1..], account)
  }

  lemma {:induction false} RowsOfAppend(a: seq<Item>, b: seq<Item>, account: string)
    ensures RowsOf(a + b, account) == RowsOf(a, account) + RowsOf(b, account)
  {
    if a != [] {
      assert (a + b)[1..] == a[1..] + b;
      RowsOfAppend(a[1..], b, account);
    } else {
      assert a + b == b;
    }
  }

  /** Rows all tagged with one account are all of that account's rows, and none of another's. */
  lemma {:induction false} RowsOfTagged(items: seq<Item>, tag: string, account: string)
    requires forall i | 0 <= i < |items| :: items[i].account == tag
    ensures RowsOf(items, account) == if account == tag then items else []
  {
    if items != [] {
      RowsOfTagged(items[1..], tag, account);
    }
  }

  /** The rows of one account's fetch all carry that account's name. */
  lemma ItemsTagged(account: string, svc: Service)
    ensures forall i | 0 <= i < |Items(Emitted(account, svc))| :: Items(Emitted(account, svc))[i].account == account
  {
    EmittedTagged(account, svc);
    var out := Emitted(account, svc);
    assert forall i | 0 <= i < |out| :: out[i] in out;
  }

  /** Appending one account's fetched rows adds them to that account's rows and to no one else's. */
  lemma RowsOfFetchAppended(earlier: seq<Item>, last: string, svc: Service, account: string)
    ensures RowsOf(earlier + Items(Emitted(last, svc)), account) ==
      RowsOf(earlier, account) + if account == last then Items(Emitted(last, svc)) else []
  {
    ItemsTagged(last, svc);
    RowsOfAppend(earlier, Items(Emitted(last, svc)), account);
    RowsOfTagged(Items(Emitted(last, svc)), last, account);
  }

  /** Fetching one more account leaves every other account's rows as they were. */
  lemma RefreshedOtherRows(order: seq<string>, svcs: map<string, Service>, account: string)
    requires Covers(order, svcs) && order != [] && account != order[|order| - 1]
    ensures RowsOf(Refreshed(order, svcs), account) == RowsOf(Refreshed(order[..|order| - 1], svcs), account)
  {
    var n := |order| - 1;
    var earlier := Refreshed(order[..n], svcs);
    assert Refreshed(order, svcs) == earlier + Items(Emitted(order[n], svcs[order[n]]));
    RowsOfFetchAppended(earlier, order[n], svcs[order[n]], account);
    assert RowsOf(earlier, account) + [] == RowsOf(earlier, account);
  }

  /** The rows one fetch of a registered account yields; none for a name without a service. */
  function FetchedRows(svcs: map<string, Service>, account: string): seq<Item>
  {
    if account in svcs then Items(Emitted(account, svcs[account])) else []
  }

  /** The account fetched last, having no rows before, has exactly its fetch's rows. */
  lemma RefreshedLastRows(order: seq<string>, svcs: map<string, Service>)
    requires Covers(order, svcs) && order != []
    requires RowsOf(Refreshed(order[..|order| - 1], svcs), order[|order| - 1]) == []
    ensures RowsOf(Refreshed(order, svcs), order[|order| - 1]) == FetchedRows(svcs, order[|order| - 1])
  {
    var n := |order| - 1;
    var earlier := Refreshed(order[..n], svcs);
    var rows := Items(Emitted(order[n], svcs[order[n]]));
    assert Refreshed(order, svcs) == earlier + rows;
    RowsOfFetchAppended(earlier, order[n], svcs[order[n]], order[n]);
    assert [] + rows == rows;
  }

  /**
   * After a refresh, the rows of each registered account are exactly the rows of
   * its own fetch, in emission order; an unregistered name has no rows.
   */
  lemma {:induction false} RefreshedRowsOf(order: seq<string>, svcs: map<string, Service>, account: string)
    requires Covers(order, svcs) && Distinct(order)
    ensures RowsOf(Refreshed(order, svcs), account) == if account in order then FetchedRows(svcs, account) else []
  {
    if order != [] {
      var n := |order| - 1;
      var prefix := order[..n];
      assert Covers(prefix, svcs) && Distinct(prefix) && order[n] !in prefix by {
        DistinctPrefix(order);
      }
      RefreshedRowsOf(prefix, svcs, account);
      if account == order[n] {
        RefreshedLastRows(order, svcs);
        assert account in order;
      } else {
        RefreshedOtherRows(order, svcs, account);
        assert account in order <==> account in prefix by {
          assert order == prefix + [order[n]];
        }
      }
    }
  }

  /**
   * The account rows after `add_account` as written (main.py:380-420): when the
   * guard passes, the row is added (main.py:403-405), and then building the
   * animation raises (main.py:407), because its target is a list item and not
   * a QObject. The registry is never updated.
   */
  function RowsAfterAddAsWritten(accounts: map<string, Handle>, rows: seq<string>, name: string): seq<string>
  {
    if name != "" && name !in accounts then rows + [name] else rows
  }

  /**
   * As written, one accepted add lists a name the registry lacks, and adding the
   * same name again lists it twice: the account rows stop being duplicate-free.
   */
  lemma AddTwiceAsWrittenDuplicates(accounts: map<string, Handle>, rows: seq<string>, name: string)
    requires name != "" && name !in accounts
    ensures var once := RowsAfterAddAsWritten(accounts, rows, name);
      name in once && name !in accounts
    ensures !Distinct(RowsAfterAddAsWritten(accounts, RowsAfterAddAsWritten(accounts, rows, name), name))
  {
    var once := RowsAfterAddAsWritten(accounts, rows, name);
    var twice := RowsAfterAddAsWritten(accounts, once, name);
    assert once[|rows|] == name;
    assert twice[|rows|] == twice[|rows| + 1] == name;
  }

  class GmailMonitor {
    /** `self.accounts`: account name to client handle; add-only. */
    var accounts: map<string, Handle>
    /** The rows of `account_list`, one per account in the order added; a Python dict iterates in that order too. */
    var accountList: seq<string>
    /** The texts of `account_input` and `search_input`. */
    var accountInput: string
    var searchInput: string
    /** The rows of `email_list`. */
    var emailList: seq<Item>
    const dashboard: DashboardWidget
    var settings: Settings
    /** The refresh timer's period in milliseconds. */
    var timerInterval: int

    ghost predicate Valid()
      reads this`accounts, this`accountList, this`settings, this`timerInterval, dashboard`unreadLabels
    {
      Registered() && TimerSet()
    }

    /** The account rows, the registry and the unread labels name the same accounts, each once. */
    ghost predicate Registered()
      reads this`accounts, this`accountList, dashboard`unreadLabels
    {
      && Distinct(accountList)
      && (forall i | 0 <= i < |accountList| :: accountList[i] in accounts)
      && (forall a | a in accounts :: a in accountList)
      && dashboard.Valid()
      && Accounts(dashboard.unreadLabels) == accountList
    }

    /** The timer runs with the period of the configured interval. */
    ghost predicate TimerSet()
      reads this`settings, this`timerInterval
    {
      timerInterval == PeriodMs(settings.refreshInterval)
    }

    /** The dashboard shows what `update_dashboard` computes from the provider's answers. */
    ghost predicate DashboardShows(provider: Mailboxes)
      reads this`accounts, this`accountList, dashboard
      requires forall i | 0 <= i < |accountList| :: accountList[i] in accounts
    {
      var svcs := Services(accounts, provider);
      && dashboard.totalEmails == Total(accountList, svcs)
      && |dashboard.unreadLabels| == |accountList|
      && (forall i | 0 <= i < |accountList| ::
            dashboard.unreadLabels[i] == UnreadLabel(accountList[i], UnreadOf(svcs[accountList[i]])))
      && dashboard.important == Important(accountList, svcs).entries
    }

    constructor ()
      ensures Valid() && fresh(dashboard)
      ensures accounts == map[] && accountList == [] && emailList == []
      ensures accountInput == "" && searchInput == ""
      ensures settings == DefaultSettings && timerInterval == 300000
      ensures dashboard.totalEmails == 0 && dashboard.unreadLabels == [] && dashboard.important == []
    {
      accounts := map[];
      accountList := [];
      accountInput := "";
      searchInput := "";
      emailList := [];
      dashboard := new DashboardWidget();
      settings := DefaultSettings;
      timerInterval := PeriodMs(DefaultSettings.refreshInterval);
    }

    /** The user edits the `account_input` line: its text becomes `text`. */
    method SetAccountInput(text: string)
      modifies this`accountInput
      ensures accountInput == text
    {
      accountInput := text;
    }

    /** The user edits the `search_input` line: its text becomes `text`; rows are filtered only on `SearchEmails`. */
    method SetSearchInput(text: string)
      modifies this`searchInput
      ensures searchInput == text
    {
      searchInput := text;
    }

    /** `add_email_to_list`: one new visible row at the end. */
    method AddEmailToList(s: Summary)
      modifies this`emailList
      ensures emailList == old(emailList) + [NewItem(s)]
    {
      emailList := emailList + [NewItem(s)];
    }

    /** `fetch_emails`: run the account's fetch and append a row per emission. */
    method FetchEmails(name: string, svc: Service)
      modifies this`emailList
      ensures emailList == old(emailList) + Items(Emitted(name, svc))
    {
      var emitted := Run(name, svc);
      for k := 0 to |emitted|
        invariant emailList == old(emailList) + Items(emitted[..k])
      {
        AddEmailToList(emitted[k]);
        assert emitted[..k + 1] == emitted[..k] + [emitted[k]];
        ItemsAppend(emitted[..k], [emitted[k]]);
      }
      assert emitted[..|emitted|] == emitted;
    }

    /** `self.dashboard.update_dashboard(self.accounts)` */
    method UpdateDashboard(provider: Mailboxes)
      requires Distinct(accountList) && dashboard.Valid()
      requires forall i | 0 <= i < |accountList| :: accountList[i] in accounts
      requires forall a | a in accounts :: a in accountList
      requires Accounts(dashboard.unreadLabels) <= accountList
      modifies dashboard
      ensures Registered()
      ensures DashboardShows(provider)
    {
      var svcs := Services(accounts, provider);
      RelabelledFollowsOrder(dashboard.unreadLabels, accountList, svcs);
      dashboard.Update(accountList, svcs);
      RelabelledInOrder(old(dashboard.unreadLabels), accountList, svcs);
    }

    /** The registration half of `add_account`: store the handle, add the row, clear the input. */
    method Register(name: string, handle: Handle)
      requires Valid() && name !in accounts
      modifies this`accounts, this`accountList, this`accountInput
      ensures accounts == old(accounts)[name := handle]
      ensures accountList == old(accountList) + [name]
      ensures accountInput == ""
      ensures Distinct(accountList)
      ensures forall i | 0 <= i < |accountList| :: accountList[i] in accounts
      ensures forall a | a in accounts :: a in accountList
      ensures Accounts(dashboard.unreadLabels) <= accountList
    {
      assert name !in accountList;
      accountList := accountList + [name];
      accounts := accounts[name := handle];
      accountInput := "";
    }

    /** The accepted path of `add_account`: register, fetch the new account, update the dashboard. */
    method Admit(name: string, handle: Handle, provider: Mailboxes)
      requires Valid() && name !in accounts
      modifies this`accounts, this`accountList, this`accountInput, this`emailList, dashboard
      ensures Valid()
      ensures accounts == old(accounts)[name := handle]
      ensures accountList == old(accountList) + [name]
      ensures accountInput == ""
      ensures emailList == old(emailList) + Items(Emitted(name, provider(handle)))
      ensures DashboardShows(provider)
    {
      Register(name, handle);
      assert TimerSet();
      FetchEmails(name, provider(handle));
      assert TimerSet();
      UpdateDashboard(provider);
    }

    /**
     * `add_account`, with the credential flow and client construction already
     * done: `handle` is the client they produce. Returns whether the warning
     * was shown instead.
     */
    method AddAccount(handle: Handle, provider: Mailboxes) returns (warned: bool)
      requires Valid()
      modifies this, dashboard
      ensures Valid()
      ensures warned <==> old(accountInput) == "" || old(accountInput) in old(accounts)
      ensures warned ==>
        && accounts == old(accounts) && accountList == old(accountList)
        && accountInput == old(accountInput) && emailList == old(emailList)
        && unchanged(dashboard)
      ensures !warned ==>
        var name := old(accountInput);
        && accounts == old(accounts)[name := handle]
        && accountList == old(accountList) + [name]
        && accountInput == ""
        && emailList == old(emailList) + Items(Emitted(name, provider(handle)))
        && DashboardShows(provider)
      ensures searchInput == old(searchInput) && settings == old(settings) && timerInterval == old(timerInterval)
    {
      var name := accountInput;
      if name != "" && name !in accounts {
        Admit(name, handle, provider);
        warned := false;
      } else {
        warned := true;
      }
    }

    /**
     * `add_account` as written: on the accepted path only the account row is
     * added before the animation raises; registry, input, email rows and
     * dashboard stay as they were. `AddAccount` is the intended behaviour.
     */
    method AddAccountAsWritten() returns (warned: bool)
      modifies this`accountList
      ensures warned <==> accountInput == "" || accountInput in accounts
      ensures accountList == RowsAfterAddAsWritten(accounts, old(accountList), accountInput)
    {
      var name := accountInput;
      if name != "" && name !in accounts {
        accountList := accountList + [name];
        warned := false;
      } else {
        warned := true;
      }
    }

    /** `search_emails`: hide exactly the rows whose lowered text lacks the lowered query. */
    method SearchEmails()
      modifies this`emailList
      ensures |emailList| == |old(emailList)|
      ensures forall i | 0 <= i < |emailList| ::
        emailList[i] == old(emailList)[i].(hidden := !Matches(old(emailList)[i], searchInput))
    {
      var query := Lower(searchInput);
      for i := 0 to |emailList|
        invariant |emailList| == |old(emailList)|
        invariant forall j | 0 <= j < i ::
          emailList[j] == old(emailList)[j].(hidden := !Matches(old(emailList)[j], searchInput))
        invariant forall j | i <= j < |emailList| :: emailList[j] == old(emailList)[j]
      {
        var item := emailList[i];
        if Contains(Lower(item.Text()), query) {
          emailList := emailList[i := item.(hidden := false)];
        } else {
          emailList := emailList[i := item.(hidden := true)];
        }
      }
    }

    /** The first half of `refresh_emails`: clear the list and fetch every account in order. */
    method FetchAll(order: seq<string>, svcs: map<string, Service>)
      requires Covers(order, svcs)
      modifies this`emailList
      ensures emailList == Refreshed(order, svcs)
    {
      emailList := [];
      for i := 0 to |order|
        invariant Covers(order[..i], svcs)
        invariant emailList == Refreshed(order[..i], svcs)
      {
        assert order[..i + 1][..i] == order[..i];
        FetchEmails(order[i], svcs[order[i]]);
      }
      assert order[..|order|] == order;
    }

    /** `refresh_emails`: clear the list, fetch every account again, recompute the dashboard. */
    method RefreshEmails(provider: Mailboxes)
      requires Valid()
      modifies this, dashboard
      ensures Valid()
      ensures accounts == old(accounts) && accountList == old(accountList)
      ensures accountInput == old(accountInput) && searchInput == old(searchInput)
      ensures settings == old(settings) && timerInterval == old(timerInterval)
      ensures emailList == Refreshed(accountList, Services(accounts, provider))
      ensures DashboardShows(provider)
    {
      FetchAll(accountList, Services(accounts, provider));
      UpdateDashboard(provider);
    }

    /** `toggle_dark_mode`: dark mode is on exactly when the box reports Checked. */
    method ToggleDarkMode(state: int)
      requires Valid()
      modifies this`settings
      ensures Valid()
      ensures settings == old(settings).(darkMode := state == Checked)
    {
      settings := settings.(darkMode := state == Checked);
    }

    /** `change_font_size` */
    method ChangeFontSize(size: int)
      requires Valid()
      modifies this`settings
      ensures Valid()
      ensures settings == old(settings).(fontSize := size)
    {
      settings := settings.(fontSize := size);
    }

    /** `change_refresh_interval`: the new interval and its period; no refresh happens. */
    method ChangeRefreshInterval(interval: int)
      requires Valid()
      modifies this`settings, this`timerInterval
      ensures Valid()
      ensures settings == old(settings).(refreshInterval := interval)
      ensures timerInterval == interval * 60000
    {
      settings := settings.(refreshInterval := interval);
      timerInterval := PeriodMs(interval);
    }

    /** `change_emails_to_display`: store the count, then refresh at once. */
    method ChangeEmailsToDisplay(count: int, provider: Mailboxes)
      requires Valid()
      modifies this, dashboard
      ensures Valid()
      ensures settings == old(settings).(emailsToDisplay := count)
      ensures accounts == old(accounts) && accountList == old(accountList) && timerInterval == old(timerInterval)
      ensures accountInput == old(accountInput) && searchInput == old(searchInput)
      ensures emailList == Refreshed(accountList, Services(accounts, provider))
      ensures DashboardShows(provider)
    {
      settings := settings.(emailsToDisplay := count);
      RefreshEmails(provider);
    }

    /** `toggle_notifications`: notifications are on exactly when the box reports Checked. */
    method ToggleNotifications(state: int)
      requires Valid()
      modifies this`settings
      ensures Valid()
      ensures settings == old(settings).(notificationsEnabled := state == Checked)
    {
      settings := settings.(notificationsEnabled := state == Checked);
    }

    /** `change_theme_color`: `picked` is the colour dialog's answer, None when it is not valid. */
    method ChangeThemeColor(picked: Option<string>)
      requires Valid()
      modifies this`settings
      ensures Valid()
      ensures settings == if picked.Some? then old(settings).(themeColor := picked.value) else old(settings)
    {
      if picked.Some? {
        settings := settings.(themeColor := picked.value);
      }
    }
  }
}
