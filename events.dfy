/**
 * The effects a registration run has on the world outside the process
 * (the sign-up driver, the browser, the token store, the machine-ID
 * resetter, the account store, `time.sleep`), recorded in the order they
 * happen.
 */
module Events {
  import opened Common

  /** A browser tab handed back by the sign-up driver. */
  datatype Tab = Tab(id: nat)

  datatype Event =
    | Signup(email: Option<string>, password: string, firstName: string, lastName: string)
    | Navigate(url: string)                     // `signup_tab.get(url)`
    | Sleep(seconds: nat)                       // `time.sleep(seconds)`
    | QueryCookies                              // `signup_tab.cookies()`
    | UpdateAuth(email: Option<string>, token: string)
    | ResetMachineIds
    | SaveAccount(email: Option<string>, password: string, token: string, usage: string)
    | QuitBrowser                               // `browser_tab.quit()`

  /** How often `e` occurs in `events`. */
  function Count(events: seq<Event>, e: Event): (r: nat)
    decreases |events|
  {
    if events == [] then 0
    else (if events[0] == e then 1 else 0) + Count(events[1..], e)
  }

  /** Occurrences add up over a concatenation. */
  lemma {:induction false} CountConcat(a: seq<Event>, b: seq<Event>, e: Event)
    ensures Count(a + b, e) == Count(a, e) + Count(b, e)
    decreases |a|
  {
    if a == [] {
      assert a + b == b;
    } else {
      assert (a + b)[0] == a[0] && (a + b)[1..] == a[1..] + b;
      CountConcat(a[1..], b, e);
    }
  }

  /** A one-event log counts that event once and nothing else. */
  lemma CountSingle(x: Event, e: Event)
    ensures Count([x], e) == if x == e then 1 else 0
  {
    assert [x][1..] == [];
  }

  /** An event occurs in a log exactly when it is counted there. */
  lemma {:induction false} CountPositive(events: seq<Event>, e: Event)
    ensures Count(events, e) > 0 <==> e in events
    decreases |events|
  {
    if events != [] {
      CountPositive(events[1..], e);
      assert events == [events[0]] + events[1..];
    }
  }
}
