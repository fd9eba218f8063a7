/**
 * What each step of a `CursorRegistration` run does, as functions of the
 * state before it and of the answers its collaborators give: the account
 * commit of `_save_account_info`, the settings visit and token poll of
 * `_get_account_info`, the browser handling of `register_cursor`, the
 * address choice of `setup_email`, the code prompt of
 * `get_verification_code`, and `start`, which chains them.
 */
module Orchestration {
  import opened Common
  import opened Text
  import opened EmailConfig
  import opened Allocation
  import opened Events
  import opened Polling
  import opened Rules

  const SettingsUrl := "https://www.cursor.com/settings"
  /** The pause after opening the settings page, in seconds. */
  const PageSettle: nat := 2

  /** The generated identity, fixed when the object is built. */
  datatype Identity = Identity(firstName: string, lastName: string, password: string)

  /**
   * The answers of everything outside the registration's own code, for one
   * run. A `Call` that raises stands for any exception the collaborator
   * throws.
   */
  datatype Env = Env(
    writable: bool,                      // `open(email_config.txt, 'w')` succeeds
    suggestion: Call<Option<string>>,    // `AccountManager(...).suggest_email(first, last)`
    signup: Call<(bool, Option<Tab>)>,   // `new_signup.main(...)`: `(result, browser_tab)`
    loads: bool,                         // `signup_tab.get(settings_url)` returns
    usage: Call<Option<string>>,         // the usage element's text; None when there is none
    cookies: nat -> Call<seq<Cookie>>,   // `signup_tab.cookies()` at attempt k
    auth: Call<bool>,                    // `CursorAuth(...).update_auth(...)`
    reset: Call<bool>,                   // `MachineIDResetter(...).reset_machine_ids()`
    save: Call<bool>,                    // `AccountManager(...).save_account_info(...)`
    timestamp: string)                   // `datetime.now()` as `%Y-%m-%d %H:%M:%S`

  /**
   * The state a run changes: the text of `email_config.txt` (None: no
   * file), the console lines not yet read, `email_address`, `signup_tab`,
   * and the log of outside effects.
   */
  datatype World = World(content: Option<string>, console: seq<string>, email: Option<string>,
                         tab: Option<Tab>, events: seq<Event>)

  function Log(w: World, es: seq<Event>): (r: World) {
    w.(events := w.events + es)
  }

  /** `f"{email}"`: a missing address is rendered as "None". */
  function Shown(email: Option<string>): (r: string) {
    if email.Some? then email.value else "None"
  }

  /** `_save_registration_record(email, username, password)`: True when the file could be written. */
  function SaveRecord(w: World, env: Env, email: Option<string>, username: string, password: string): (r: (bool, World)) {
    if env.writable then
      (true, w.(content := Some(WithRecord(w.content, RecordBlock(env.timestamp, Shown(email), username, password)))))
    else (false, w)
  }

  /** `_save_account_info(token, total_usage)`. */
  function SaveAccountInfo(w: World, env: Env, id: Identity, token: string, usage: string): (r: (bool, World)) {
    var w1 := Log(w, [UpdateAuth(w.email, token)]);
    if env.auth.Raises? then (false, w1)
    else
      var w2 := Log(w1, [ResetMachineIds]);
      if env.reset != Returns(true) then (false, w2)
      else
        var w3 := Log(w2, [SaveAccount(w.email, id.password, token, usage)]);
        if env.save != Returns(true) then (false, w3)
        else (true, SaveRecord(w3, env, w.email, id.firstName + " " + id.lastName, id.password).1)
  }

  /** `_get_account_info()`. */
  function AccountInfo(w: World, env: Env, id: Identity): (r: (bool, World)) {
    if w.tab.None? then (false, w)
    else
      var w1 := Log(w, [Navigate(SettingsUrl)]);
      if !env.loads then (false, w1)
      else
        var w2 := Log(w1, [Sleep(PageSettle)]);
        if env.usage.Raises? then (false, w2)
        else
          var w3 := Log(w2, PollEvents(env.cookies));
          match Poll(env.cookies, 0)
          case Exhausted => (false, w3)
          case Found(_, token) => (true, SaveAccountInfo(w3, env, id, token, UsageQuota(env.usage.value)).1)
  }

  /** `if browser_tab: browser_tab.quit()` (an exception there is swallowed). */
  function Quits(tab: Option<Tab>): (r: seq<Event>) {
    if tab.Some? then [QuitBrowser] else []
  }

  /** `register_cursor()`. */
  function RegisterCursor(w: World, env: Env, id: Identity): (r: (bool, World)) {
    var w1 := Log(w, [Signup(w.email, id.password, id.firstName, id.lastName)]);
    match env.signup
    case Raises => (false, w1)
    case Returns(answer) =>
      var tab := answer.1;
      if answer.0 then
        var info := AccountInfo(w1.(tab := tab), env, id);
        (info.0, Log(info.1, Quits(tab) + Quits(tab)))
      else (false, Log(w1, Quits(tab)))
  }

  /** The end of `setup_email`: the address is kept, and accepted when it has an '@'. */
  function Chosen(w: World, email: string): (r: (bool, World)) {
    ('@' in email, w.(email := Some(email)))
  }

  /** `setup_email()`: a choice line, then a suggestion answer, a typed address or an allocation. */
  function SetupEmail(w: World, env: Env, id: Identity): (r: (bool, World)) {
    if w.console == [] then (false, w)
    else
      var choice := Strip(w.console[0]);
      var w1 := w.(console := w.console[1..]);
      if choice == "2" then SuggestedOrTyped(w1, env)
      else if choice == "3" then Typed(w1)
      else Automatic(w1, env)
  }

  /**
   * Option 2: the suggested address when there is one and the answer is
   * "yes" or "y"; otherwise the answer itself is the address.
   */
  function SuggestedOrTyped(w: World, env: Env): (r: (bool, World)) {
    match env.suggestion
    case Raises => (false, w)
    case Returns(suggested) =>
      if w.console == [] then (false, w)
      else
        var line := Strip(w.console[0]);
        var w1 := w.(console := w.console[1..]);
        Chosen(w1, if suggested.Some? && suggested.value != "" && IsYes(line) then suggested.value else line)
  }

  /** Option 3: the address typed on the next line. */
  function Typed(w: World): (r: (bool, World)) {
    if w.console == [] then (false, w)
    else Chosen(w.(console := w.console[1..]), Strip(w.console[0]))
  }

  /** Option 1 (and any unknown choice): the next address from the allocator. */
  function Automatic(w: World, env: Env): (r: (bool, World)) {
    var s := Allocate(w.content, env.writable, w.console);
    var w1 := w.(content := s.file, console := s.console);
    if s.result.Issued? then Chosen(w1, s.result.email) else (false, w1)
  }

  /** `get_verification_code()`: None at end of input or for a refused line. */
  function GetVerificationCode(w: World): (r: (Option<string>, World)) {
    if w.console == [] then (None, w)
    else (VerificationCode(w.console[0]), w.(console := w.console[1..]))
  }

  /** `start()`. */
  function Start(w: World, env: Env, id: Identity): (r: (bool, World)) {
    var setup := SetupEmail(w, env, id);
    if !setup.0 then setup else RegisterCursor(setup.1, env, id)
  }

  // ---------------------------------------------------------------------
  // _save_account_info
  // ---------------------------------------------------------------------

  /**
   * The commit stops at the first hard failure, in a fixed order: the auth
   * update always runs, the machine-ID reset runs unless the auth update
   * raised, the account is saved only after a reset that returned True,
   * and the registration record is written only after a save that returned
   * True. It reports True exactly when all of that went through.
   */
  lemma CommitOrder(w: World, env: Env, id: Identity, token: string, usage: string)
    ensures var r := SaveAccountInfo(w, env, id, token, usage);
            && (r.0 <==> env.auth.Returns? && env.reset == Returns(true) && env.save == Returns(true))
            && (ResetMachineIds in r.1.events[|w.events|..] <==> env.auth.Returns?)
            && (SaveAccount(w.email, id.password, token, usage) in r.1.events[|w.events|..] <==>
                  env.auth.Returns? && env.reset == Returns(true))
            && (r.1.content != w.content ==> r.0 && env.writable)
            && r.1.console == w.console && r.1.email == w.email && r.1.tab == w.tab
            && r.1.events == w.events + [UpdateAuth(w.email, token)]
                 + (if env.auth.Raises? then []
                    else [ResetMachineIds] + (if env.reset != Returns(true) then []
                                              else [SaveAccount(w.email, id.password, token, usage)]))
  {
    var w1 := Log(w, [UpdateAuth(w.email, token)]);
    var w2 := Log(w1, [ResetMachineIds]);
    var w3 := Log(w2, [SaveAccount(w.email, id.password, token, usage)]);
    assert w1.events[|w.events|..] == [UpdateAuth(w.email, token)];
    assert w2.events[|w.events|..] == [UpdateAuth(w.email, token), ResetMachineIds];
    assert w3.events[|w.events|..] == [UpdateAuth(w.email, token), ResetMachineIds, SaveAccount(w.email, id.password, token, usage)];
  }

  /** An auth update that returns False is reported and otherwise ignored. */
  lemma AuthFalseIgnored(w: World, env: Env, id: Identity, token: string, usage: string)
    ensures SaveAccountInfo(w, env.(auth := Returns(false)), id, token, usage)
            == SaveAccountInfo(w, env.(auth := Returns(true)), id, token, usage)
  {
  }

  /**
   * A complete commit on a writable file puts the record for this account
   * in front of what the file held.
   */
  lemma CommitWritesRecord(w: World, env: Env, id: Identity, token: string, usage: string)
    requires env.auth.Returns? && env.reset == Returns(true) && env.save == Returns(true) && env.writable
    requires w.content.Some? ==> '\r' !in w.content.value
    ensures SaveAccountInfo(w, env, id, token, usage).1.content
            == Some(RecordBlock(env.timestamp, Shown(w.email), id.firstName + " " + id.lastName, id.password)
                    + (if w.content.Some? then w.content.value else ""))
  {
    RecordPrepended(w.content, RecordBlock(env.timestamp, Shown(w.email), id.firstName + " " + id.lastName, id.password));
  }

  // ---------------------------------------------------------------------
  // _get_account_info
  // ---------------------------------------------------------------------

  /**
   * Success means a token was found, and nothing else: the result does not
   * depend on what the commit (auth update, machine-ID reset, account save)
   * made of it.
   */
  lemma AccountInfoResult(w: World, env: Env, id: Identity)
    ensures AccountInfo(w, env, id).0 <==>
              w.tab.Some? && env.loads && env.usage.Returns? && Poll(env.cookies, 0).Found?
  {
  }

  /**
   * A poll that never finds a token: the settings page, the pause, then 30
   * cookie queries with 29 retry sleeps between them, and no commit. The
   * pause and the retry interval are both two seconds, so the log holds 30
   * sleeps of two seconds.
   */
  lemma AccountInfoExhausted(w: World, env: Env, id: Identity)
    requires w.tab.Some? && env.loads && env.usage.Returns? && Poll(env.cookies, 0).Exhausted?
    ensures var r := AccountInfo(w, env, id);
            var added := r.1.events[|w.events|..];
            && !r.0 && r.1.content == w.content
            && added == [Navigate(SettingsUrl), Sleep(PageSettle)] + FailedAttempts(MaxAttempts)
            && added[..2] == [Navigate(SettingsUrl), Sleep(PageSettle)]
            && Count(added, QueryCookies) == MaxAttempts
            && Count(added, Sleep(RetryInterval)) == MaxAttempts
  {
    var r := AccountInfo(w, env, id);
    var added := [Navigate(SettingsUrl), Sleep(PageSettle)] + PollEvents(env.cookies);
    assert r.1.events == w.events + added;
    assert r.1.events[|w.events|..] == added;
    SettingsPollCounts(env.cookies);
  }

  /** The settings page, the pause and an exhausted poll: 30 queries and 30 two-second sleeps. */
  lemma SettingsPollCounts(query: nat -> Call<seq<Cookie>>)
    requires Poll(query, 0).Exhausted?
    ensures var added := [Navigate(SettingsUrl), Sleep(PageSettle)] + PollEvents(query);
            && added[..2] == [Navigate(SettingsUrl), Sleep(PageSettle)]
            && Count(added, QueryCookies) == MaxAttempts
            && Count(added, Sleep(RetryInterval)) == MaxAttempts
  {
    var head := [Navigate(SettingsUrl), Sleep(PageSettle)];
    PollCost(query);
    CountConcat(head, PollEvents(query), QueryCookies);
    CountConcat(head, PollEvents(query), Sleep(RetryInterval));
    SettingsHeadCounts();
  }

  /** Before the poll: no cookie query and one sleep as long as the retry interval. */
  lemma SettingsHeadCounts()
    ensures Count([Navigate(SettingsUrl), Sleep(PageSettle)], QueryCookies) == 0
    ensures Count([Navigate(SettingsUrl), Sleep(PageSettle)], Sleep(RetryInterval)) == 1
  {
    assert [Navigate(SettingsUrl), Sleep(PageSettle)] == [Navigate(SettingsUrl)] + [Sleep(PageSettle)];
    CountConcat([Navigate(SettingsUrl)], [Sleep(PageSettle)], QueryCookies);
    CountConcat([Navigate(SettingsUrl)], [Sleep(PageSettle)], Sleep(RetryInterval));
    CountSingle(Navigate(SettingsUrl), QueryCookies);
    CountSingle(Navigate(SettingsUrl), Sleep(RetryInterval));
    CountSingle(Sleep(PageSettle), QueryCookies);
    CountSingle(Sleep(PageSettle), Sleep(RetryInterval));
  }

  /** Nothing in `_get_account_info` closes the browser. */
  lemma AccountInfoNoQuit(w: World, env: Env, id: Identity)
    ensures Count(AccountInfo(w, env, id).1.events, QuitBrowser) == Count(w.events, QuitBrowser)
  {
    if w.tab.Some? {
      var w1 := Log(w, [Navigate(SettingsUrl)]);
      LogNoQuit(w, [Navigate(SettingsUrl)]);
      if env.loads {
        var w2 := Log(w1, [Sleep(PageSettle)]);
        LogNoQuit(w1, [Sleep(PageSettle)]);
        if env.usage.Returns? {
          var w3 := Log(w2, PollEvents(env.cookies));
          PollEventKinds(env.cookies);
          LogNoQuit(w2, PollEvents(env.cookies));
          if Poll(env.cookies, 0).Found? {
            CommitNoQuit(w3, env, id, Poll(env.cookies, 0).token, UsageQuota(env.usage.value));
          }
        }
      }
    }
  }

  /** Logging events other than `QuitBrowser` leaves the quit count alone. */
  lemma LogNoQuit(w: World, es: seq<Event>)
    requires QuitBrowser !in es
    ensures Count(Log(w, es).events, QuitBrowser) == Count(w.events, QuitBrowser)
  {
    CountConcat(w.events, es, QuitBrowser);
    CountPositive(es, QuitBrowser);
  }

  /** Nothing in `_save_account_info` closes the browser. */
  lemma CommitNoQuit(w: World, env: Env, id: Identity, token: string, usage: string)
    ensures Count(SaveAccountInfo(w, env, id, token, usage).1.events, QuitBrowser) == Count(w.events, QuitBrowser)
  {
    var w1 := Log(w, [UpdateAuth(w.email, token)]);
    var w2 := Log(w1, [ResetMachineIds]);
    LogNoQuit(w, [UpdateAuth(w.email, token)]);
    LogNoQuit(w1, [ResetMachineIds]);
    LogNoQuit(w2, [SaveAccount(w.email, id.password, token, usage)]);
  }

  // ---------------------------------------------------------------------
  // register_cursor
  // ---------------------------------------------------------------------

  /**
   * Registration succeeds exactly when the driver reports success and hands
   * back a tab, the settings page loads, its usage element can be read and
   * the poll finds a token.
   */
  lemma RegisterResult(w: World, env: Env, id: Identity)
    ensures RegisterCursor(w, env, id).0 <==>
              && env.signup.Returns? && env.signup.value.0 && env.signup.value.1.Some?
              && env.loads && env.usage.Returns? && Poll(env.cookies, 0).Found?
  {
    if env.signup.Returns? && env.signup.value.0 {
      var w1 := Log(w, [Signup(w.email, id.password, id.firstName, id.lastName)]);
      AccountInfoResult(w1.(tab := env.signup.value.1), env, id);
    }
  }

  /**
   * How often the browser is closed: twice when the driver reported success
   * with a tab (once after the account step, once more in `finally`), once
   * when it reported failure with a tab, never without a tab.
   */
  lemma BrowserQuits(w: World, env: Env, id: Identity)
    ensures Count(RegisterCursor(w, env, id).1.events, QuitBrowser)
            == Count(w.events, QuitBrowser)
               + (if env.signup.Raises? || env.signup.value.1.None? then 0
                  else if env.signup.value.0 then 2 else 1)
  {
    var e := Signup(w.email, id.password, id.firstName, id.lastName);
    var w1 := Log(w, [e]);
    assert Count(w1.events, QuitBrowser) == Count(w.events, QuitBrowser) by {
      CountConcat(w.events, [e], QuitBrowser);
      CountSingle(e, QuitBrowser);
    }
    if env.signup.Returns? {
      var tab := env.signup.value.1;
      var q := Quits(tab);
      assert Count(q, QuitBrowser) == (if tab.Some? then 1 else 0) by {
        if tab.Some? {
          CountSingle(QuitBrowser, QuitBrowser);
        }
      }
      CountConcat(q, q, QuitBrowser);
      if env.signup.value.0 {
        var info := AccountInfo(w1.(tab := tab), env, id);
        AccountInfoNoQuit(w1.(tab := tab), env, id);
        CountConcat(info.1.events, q + q, QuitBrowser);
      } else {
        CountConcat(w1.events, q, QuitBrowser);
      }
    }
  }

  // ---------------------------------------------------------------------
  // setup_email
  // ---------------------------------------------------------------------

  /**
   * Setting up the address touches neither the browser nor the outside
   * world, and an accepted address always holds an '@'. Only the automatic
   * choice can change the file.
   */
  lemma SetupEmailResult(w: World, env: Env, id: Identity)
    ensures var r := SetupEmail(w, env, id);
            && r.1.events == w.events && r.1.tab == w.tab
            && (r.0 ==> r.1.email.Some? && '@' in r.1.email.value)
            && (w.console != [] && Strip(w.console[0]) in {"2", "3"} ==> r.1.content == w.content)
  {
    if w.console != [] {
      var choice := Strip(w.console[0]);
      var w1 := w.(console := w.console[1..]);
      if choice == "2" {
        assert SetupEmail(w, env, id) == SuggestedOrTyped(w1, env);
      } else if choice == "3" {
        assert SetupEmail(w, env, id) == Typed(w1);
      } else {
        assert SetupEmail(w, env, id) == Automatic(w1, env);
      }
    }
  }

  /** Any choice other than "2" and "3" does what "1" does. */
  lemma UnknownChoiceIsAutomatic(w: World, env: Env, id: Identity)
    requires w.console != [] && Strip(w.console[0]) != "2" && Strip(w.console[0]) != "3"
    ensures SetupEmail(w, env, id) == SetupEmail(w.(console := ["1"] + w.console[1..]), env, id)
  {
    var one := "1";
    assert Strip(one) == one by {
      StripUnchanged(one);
    }
    assert (["1"] + w.console[1..])[1..] == w.console[1..];
  }

  /**
   * The automatic choice with a stored state `(t, c)` and '@' in `t`: the
   * address for `c` is accepted and the state moves on to `(t, c + 1)`.
   */
  lemma AutomaticFromState(w: World, env: Env, t: string, c: nat)
    requires ParseConfig(w.content) == Config(Some(t), c) && '@' in t && env.writable
    ensures var r := Automatic(w, env);
            && r.0 && r.1.email == AutoAddress(t, c)
            && ParseConfig(r.1.content) == Config(Some(t), c + 1)
            && r.1.console == w.console
  {
    AllocateFromState(w.content, env.writable, w.console, t, c);
    IssuedAddress(t, c);
    if c > 0 {
      var parts := SplitAtFirst(t, '@').value;
      assert AutoAddress(t, c).value == parts.0 + Hex5(c) + "@" + parts.1;
      assert (parts.0 + Hex5(c) + "@" + parts.1)[|parts.0| + |Hex5(c)|] == '@';
    }
  }

  /**
   * A stored template without '@' (which the allocator itself never
   * writes) with counter 0 in a writable file still advances once: the
   * first automatic setup is refused but stores `(t, 1)`, and every later
   * one, whatever the console holds, raises and changes nothing.
   */
  lemma StaleTemplate(w: World, env: Env, t: string)
    requires ParseConfig(w.content) == Config(Some(t), 0) && '@' !in t && env.writable
    ensures var first := Automatic(w, env);
            && !first.0 && ParseConfig(first.1.content) == Config(Some(t), 1)
            && forall later: World | later.content == first.1.content ::
                 && Allocate(later.content, env.writable, later.console).result == Raised
                 && !Automatic(later, env).0 && Automatic(later, env).1.content == later.content
  {
    AllocateFromState(w.content, env.writable, w.console, t, 0);
    var first := Automatic(w, env);
    assert first.1.email == Some(t);
    forall later: World | later.content == first.1.content
      ensures Allocate(later.content, env.writable, later.console).result == Raised
      ensures !Automatic(later, env).0 && Automatic(later, env).1.content == later.content
    {
      AllocateFromState(later.content, env.writable, later.console, t, 1);
    }
  }

  /**
   * Option 2 with a suggestion: "y"/"yes" in any case takes it; any other
   * answer is taken as the address itself.
   */
  lemma SuggestionAnswer(w: World, env: Env, suggested: string)
    requires env.suggestion == Returns(Some(suggested)) && suggested != "" && w.console != []
    ensures var r := SuggestedOrTyped(w, env);
            var answer := Strip(w.console[0]);
            && r.1.email == Some(if IsYes(answer) then suggested else answer)
            && r.1.console == w.console[1..]
            && (r.0 <==> '@' in r.1.email.value)
  {
  }

  /**
   * Option 3: the next line, stripped, is the address, and it is accepted
   * exactly when it holds an '@'.
   */
  lemma TypedAnswer(w: World)
    requires w.console != []
    ensures var r := Typed(w);
            && r.1.email == Some(Strip(w.console[0]))
            && r.1.console == w.console[1..]
            && r.1.content == w.content && r.1.events == w.events
            && (r.0 <==> '@' in Strip(w.console[0]))
  {
  }

  /** Option 2 without a (non-empty) suggestion is option 3: the answer is the address. */
  lemma NoSuggestionIsTyped(w: World, env: Env)
    requires env.suggestion.Returns? && (env.suggestion.value.None? || env.suggestion.value.value == "")
    ensures SuggestedOrTyped(w, env) == Typed(w)
  {
  }

  // ---------------------------------------------------------------------
  // start
  // ---------------------------------------------------------------------

  /** A run whose address setup fails touches nothing outside the process. */
  lemma StartSetupFails(w: World, env: Env, id: Identity)
    requires !SetupEmail(w, env, id).0
    ensures var r := Start(w, env, id);
            !r.0 && r.1.events == w.events && r.1.tab == w.tab
  {
    SetupEmailResult(w, env, id);
  }

  /**
   * A successful run signed up with an address that has an '@' and closed
   * the browser twice.
   */
  lemma StartSucceeds(w: World, env: Env, id: Identity)
    requires Start(w, env, id).0
    ensures var setup := SetupEmail(w, env, id);
            var r := Start(w, env, id);
            && setup.0 && r.1.email == setup.1.email && r.1.email.Some? && '@' in r.1.email.value
            && |r.1.events| > |w.events| && r.1.events[..|w.events|] == w.events
            && r.1.events[|w.events|] == Signup(setup.1.email, id.password, id.firstName, id.lastName)
            && Count(r.1.events, QuitBrowser) == Count(w.events, QuitBrowser) + 2
  {
    var setup := SetupEmail(w, env, id);
    SetupEmailResult(w, env, id);
    assert setup.0;
    var r := RegisterCursor(setup.1, env, id);
    assert Start(w, env, id) == r;
    RegisterPrefix(setup.1, env, id);
    RegisterResult(setup.1, env, id);
    BrowserQuits(setup.1, env, id);
  }

  /**
   * `register_cursor` only appends to the log, starting with the sign-up,
   * and never changes the address.
   */
  lemma RegisterPrefix(w: World, env: Env, id: Identity)
    ensures var r := RegisterCursor(w, env, id);
            && |r.1.events| > |w.events| && r.1.events[..|w.events|] == w.events
            && r.1.events[|w.events|] == Signup(w.email, id.password, id.firstName, id.lastName)
            && r.1.email == w.email
  {
    var w1 := Log(w, [Signup(w.email, id.password, id.firstName, id.lastName)]);
    if env.signup.Returns? && env.signup.value.0 {
      var w2 := w1.(tab := env.signup.value.1);
      AccountInfoExtends(w2, env, id);
    }
  }

  /** `_get_account_info` only appends to the log and never changes the address. */
  lemma AccountInfoExtends(w: World, env: Env, id: Identity)
    ensures var r := AccountInfo(w, env, id);
            && |r.1.events| >= |w.events| && r.1.events[..|w.events|] == w.events
            && r.1.email == w.email
  {
    if w.tab.Some? && env.loads && env.usage.Returns? && Poll(env.cookies, 0).Found? {
      var w3 := Log(Log(Log(w, [Navigate(SettingsUrl)]), [Sleep(PageSettle)]), PollEvents(env.cookies));
      var r := SaveAccountInfo(w3, env, id, Poll(env.cookies, 0).token, UsageQuota(env.usage.value)).1;
      CommitExtends(w3, env, id, Poll(env.cookies, 0).token, UsageQuota(env.usage.value));
      assert w3.events[..|w.events|] == w.events;
      assert r.events[..|w.events|] == r.events[..|w3.events|][..|w.events|];
    }
  }

  /** `_save_account_info` only appends to the log and never changes the address. */
  lemma CommitExtends(w: World, env: Env, id: Identity, token: string, usage: string)
    ensures var r := SaveAccountInfo(w, env, id, token, usage).1;
            && |r.events| >= |w.events| && r.events[..|w.events|] == w.events
            && r.email == w.email
  {
    var r := SaveAccountInfo(w, env, id, token, usage).1;
    assert r.events[..|w.events|] == w.events;
  }
}
