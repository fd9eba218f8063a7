/**
 * `CursorRegistration` itself: an object whose methods read the console,
 * rewrite `email_config.txt`, set `email_address` and `signup_tab`, and act
 * on the outside world, each proved to do what the matching function of
 * `Orchestration` (or `Allocation`, `EmailConfig`) says.
 */
module Registration {
  import opened Common
  import opened Text
  import opened EmailConfig
  import opened Allocation
  import opened Events
  import opened Polling
  import opened Rules
  import opened Orchestration

  class CursorRegistration {
    /** First name, last name and password, generated once in `__init__`. */
    const id: Identity
    /** The answers the collaborators give during this run. */
    const env: Env

    /** The text of `email_config.txt`; None while there is no file. */
    var content: Option<string>
    /** The console lines not yet read by `input()`. */
    var console: seq<string>
    var emailAddress: Option<string>
    var signupTab: Option<Tab>
    /** The outside effects so far, oldest first. */
    var events: seq<Event>

    function State(): (r: World)
      reads this
    {
      World(content, console, emailAddress, signupTab, events)
    }

    constructor (id: Identity, env: Env, content: Option<string>, console: seq<string>)
      ensures this.id == id && this.env == env
      ensures State() == World(content, console, None, None, [])
    {
      this.id := id;
      this.env := env;
      this.content := content;
      this.console := console;
      emailAddress := None;
      signupTab := None;
      events := [];
    }

    /** `input()`: the next console line, or None where Python raises EOFError. */
    method ReadLine() returns (line: Option<string>)
      modifies this`console
      ensures old(console) == [] ==> line.None? && console == []
      ensures old(console) != [] ==> line == Some(old(console)[0]) && console == old(console)[1..]
    {
      if console == [] {
        return None;
      }
      line := Some(console[0]);
      console := console[1..];
    }

    /** `_read_email_config()`. */
    method ReadEmailConfig() returns (cfg: Config)
      ensures cfg == ParseConfig(content)
    {
      if content.None? {
        return Config(None, 0);
      }
      var lines := Split(Strip(Newlines(content.value)), '\n');
      if |lines| >= 2 {
        var counter := ParseDecimal(lines[1]);
        if counter.Some? {
          return Config(Some(lines[0]), counter.value);
        }
      }
      return Config(None, 0);
    }

    /** `_write_email_config(template, counter, current_email)`. */
    method WriteEmailConfig(template: string, counter: nat, current: Option<string>) returns (ok: bool)
      modifies this`content
      ensures ok == env.writable
      ensures content == if ok then Some(ConfigText(template, counter, current)) else old(content)
    {
      if !env.writable {
        return false;
      }
      var third := if current.Some? && current.value != "" then "\n" + current.value else "";
      content := Some(template + "\n" + DecimalString(counter) + third);
      return true;
    }

    /** `_save_registration_record(email, username, password)`. */
    method SaveRegistrationRecord(email: Option<string>, username: string, password: string) returns (ok: bool)
      modifies this`content
      ensures (ok, State()) == SaveRecord(old(State()), env, email, username, password)
    {
      var existing := "";
      if content.Some? {
        existing := Newlines(content.value);
      }
      var record := RecordBlock(env.timestamp, Shown(email), username, password);
      if !env.writable {
        return false;
      }
      content := Some(record + existing);
      return true;
    }

    /** `_generate_auto_email()`. */
    method GenerateAutoEmail() returns (result: AllocationResult)
      modifies this`content, this`console
      ensures AllocStep(result, content, console) == Allocate(old(content), env.writable, old(console))
    {
      var cfg := ReadEmailConfig();
      var template: string;
      var counter: nat;
      if cfg.template.None? {
        var line := ReadLine();
        if line.None? {
          return Raised;
        }
        template := Strip(line.value);
        if '@' !in template {
          return InvalidTemplate;
        }
        var _ := WriteEmailConfig(template, 0, None);
        counter := 0;
      } else {
        template, counter := cfg.template.value, cfg.counter;
      }
      var email: string;
      if counter == 0 {
        email := template;
      } else {
        var parts := SplitAtFirst(template, '@');
        if parts.None? {
          return Raised;
        }
        email := parts.value.0 + Hex5(counter) + "@" + parts.value.1;
      }
      var _ := WriteEmailConfig(template, counter + 1, None);
      return Issued(email, counter);
    }

    /** `setup_email()`. */
    method SetupEmail() returns (ok: bool)
      modifies this`content, this`console, this`emailAddress
      ensures (ok, State()) == Orchestration.SetupEmail(old(State()), env, id)
    {
      var choiceLine := ReadLine();
      if choiceLine.None? {
        return false;
      }
      var choice := Strip(choiceLine.value);
      var address: string;
      if choice == "2" {
        if env.suggestion.Raises? {
          return false;
        }
        var suggested := env.suggestion.value;
        var line := ReadLine();
        if line.None? {
          return false;
        }
        var answer := Strip(line.value);
        if suggested.Some? && suggested.value != "" && IsYes(answer) {
          address := suggested.value;
        } else {
          address := answer;
        }
      } else if choice == "3" {
        var line := ReadLine();
        if line.None? {
          return false;
        }
        address := Strip(line.value);
      } else {
        var result := GenerateAutoEmail();
        if !result.Issued? {
          return false;
        }
        address := result.email;
      }
      emailAddress := Some(address);
      ok := '@' in address;
    }

    /** `get_verification_code()`. */
    method GetVerificationCode() returns (code: Option<string>)
      modifies this`console
      ensures (code, State()) == Orchestration.GetVerificationCode(old(State()))
    {
      var line := ReadLine();
      if line.None? {
        return None;
      }
      var typed := Strip(line.value);
      if !AllDigits(typed) || |typed| != 6 {
        return None;
      }
      return Some(typed);
    }

    /** `update_cursor_auth(email, access_token=token, refresh_token=token)`. */
    method UpdateCursorAuth(email: Option<string>, token: string) returns (outcome: Call<bool>)
      modifies this`events
      ensures outcome == env.auth && events == old(events) + [UpdateAuth(email, token)]
    {
      events := events + [UpdateAuth(email, token)];
      outcome := env.auth;
    }

    /** `_save_account_info(token, total_usage)`. */
    method SaveAccountInfo(token: string, usage: string) returns (ok: bool)
      modifies this`events, this`content
      ensures (ok, State()) == Orchestration.SaveAccountInfo(old(State()), env, id, token, usage)
    {
      var auth := UpdateCursorAuth(emailAddress, token);
      if auth.Raises? {
        return false;
      }
      events := events + [ResetMachineIds];
      if env.reset != Returns(true) {
        return false;
      }
      events := events + [SaveAccount(emailAddress, id.password, token, usage)];
      if env.save != Returns(true) {
        return false;
      }
      var _ := SaveRegistrationRecord(emailAddress, id.firstName + " " + id.lastName, id.password);
      return true;
    }

    /** The inner `for cookie in cookies` loop: the token of the first session cookie. */
    method SessionToken(cookies: seq<Cookie>) returns (token: Option<string>)
      ensures token == AttemptToken(Returns(cookies))
    {
      var i := 0;
      while i < |cookies|
        invariant i <= |cookies|
        invariant SessionIndex(cookies, i) == SessionIndex(cookies, 0)
      {
        if cookies[i].name == SessionCookie {
          if cookies[i].token.Raises? {
            return None;
          }
          return Some(cookies[i].token.value);
        }
        i := i + 1;
      }
      return None;
    }

    /** `_get_account_info()`. */
    method GetAccountInfo() returns (ok: bool)
      modifies this`events, this`content
      ensures (ok, State()) == AccountInfo(old(State()), env, id)
    {
      if signupTab.None? {
        return false;
      }
      events := events + [Navigate(SettingsUrl)];
      if !env.loads {
        return false;
      }
      events := events + [Sleep(PageSettle)];
      if env.usage.Raises? {
        return false;
      }
      var usage := UsageQuota(env.usage.value);
      var token := PollSessionToken();
      if token.None? {
        return false;
      }
      var _ := SaveAccountInfo(token.value, usage);
      return true;
    }

    /** One attempt: read the cookies and look for the session token among them. */
    method QueryToken(attempt: nat) returns (found: Option<string>)
      ensures found == AttemptToken(env.cookies(attempt))
    {
      found := None;
      var answer := env.cookies(attempt);
      if answer.Returns? {
        found := SessionToken(answer.value);
      }
    }

    /**
     * The token loop of `_get_account_info`: up to 30 cookie queries, two
     * seconds apart, until one yields a session token. The events it logs
     * are those of `Polling.PollEvents`, and it comes back with the token
     * exactly when `Polling.Poll` finds one.
     */
    method PollSessionToken() returns (token: Option<string>)
      modifies this`events
      ensures events == old(events) + PollEvents(env.cookies)
      ensures token.Some? <==> Poll(env.cookies, 0).Found?
      ensures token.Some? ==> token.value == Poll(env.cookies, 0).token
    {
      ghost var start := events;
      ghost var query := env.cookies;
      var attempts: nat := 0;
      while attempts < MaxAttempts
        invariant attempts <= MaxAttempts
        invariant events == start + FailedAttempts(attempts)
        invariant Poll(query, attempts) == Poll(query, 0)
        decreases MaxAttempts - attempts
      {
        events := events + [QueryCookies];
        var found := QueryToken(attempts);
        if found.Some? {
          PollFoundAt(query, attempts);
          assert events == start + (FailedAttempts(attempts) + [QueryCookies]);
          return found;
        }
        PollAdvance(query, attempts);
        FailedAttemptsNext(start, attempts);
        attempts := attempts + 1;
        if attempts < MaxAttempts {
          events := events + [Sleep(RetryInterval)];
        }
      }
      PollExhaustedAt(query);
      return None;
    }

    /** `browser_tab.quit()` when there is a tab. */
    method Quit(tab: Option<Tab>)
      modifies this`events
      ensures events == old(events) + Quits(tab)
    {
      if tab.Some? {
        events := events + [QuitBrowser];
      }
    }

    /** `register_cursor()`. */
    method RegisterCursor() returns (ok: bool)
      modifies this`events, this`content, this`signupTab
      ensures (ok, State()) == Orchestration.RegisterCursor(old(State()), env, id)
    {
      events := events + [Signup(emailAddress, id.password, id.firstName, id.lastName)];
      if env.signup.Raises? {
        return false;
      }
      var result, browserTab := env.signup.value.0, env.signup.value.1;
      if result {
        signupTab := browserTab;
        ok := GetAccountInfo();
        ghost var afterInfo := events;
        Quit(browserTab);
        Quit(browserTab);
        assert events == afterInfo + (Quits(browserTab) + Quits(browserTab));
        return;
      }
      Quit(browserTab);
      return false;
    }

    /** `start()`. */
    method Start() returns (ok: bool)
      modifies this
      ensures (ok, State()) == Orchestration.Start(old(State()), env, id)
    {
      ok := SetupEmail();
      if !ok {
        return;
      }
      ok := RegisterCursor();
    }
  }
}
