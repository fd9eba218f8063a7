/**
 * The counter-based address allocator, `_generate_auto_email`, as a
 * function of the file it reads and writes and of the console lines the
 * operator types: one read of `email_config.txt`, a prompt for a template
 * when the file holds no state, the address rule, and the write-back of the
 * incremented counter.
 */
module Allocation {
  import opened Common
  import opened Text
  import opened EmailConfig

  /** What `_generate_auto_email` hands back to `setup_email`. */
  datatype AllocationResult =
    | Issued(email: string, counter: nat)  // `(email, counter)`
    | InvalidTemplate                      // `(None, None)`: the typed template has no '@'
    | Raised                               // EOF at the prompt, or a counter > 0 with no '@' to split at

  /** One allocation's effect: its result, the file after it and the console lines left. */
  datatype AllocStep = AllocStep(result: AllocationResult, file: Option<string>, console: seq<string>)

  /**
   * The file after `_write_email_config(template, counter)`: overwritten,
   * or untouched when opening it for writing fails (the call then returns
   * False, which the allocator ignores).
   */
  function Stored(file: Option<string>, writable: bool, template: string, counter: nat): (r: Option<string>) {
    if writable then Some(ConfigText(template, counter, None)) else file
  }

  /** What is handed back for `(template, counter)`: the address and the counter, or a raise. */
  function Issuance(template: string, counter: nat): (r: AllocationResult) {
    match AutoAddress(template, counter)
    case None => Raised
    case Some(email) => Issued(email, counter)
  }

  /** Issue the address for `(template, counter)`, then store `counter + 1`. */
  function Issue(template: string, counter: nat, file: Option<string>, writable: bool,
                 console: seq<string>): (r: AllocStep)
  {
    var result := Issuance(template, counter);
    AllocStep(result, if result.Raised? then file else Stored(file, writable, template, counter + 1), console)
  }

  /** `_generate_auto_email`. */
  function Allocate(file: Option<string>, writable: bool, console: seq<string>): (r: AllocStep) {
    var cfg := ParseConfig(file);
    match cfg.template
    case Some(template) => Issue(template, cfg.counter, file, writable, console)
    case None =>
      if console == [] then AllocStep(Raised, file, console)
      else
        var template := Strip(console[0]);
        if '@' !in template then AllocStep(InvalidTemplate, file, console[1..])
        else Issue(template, 0, Stored(file, writable, template, 0), writable, console[1..])
  }

  /**
   * With a stored state `(t, c)`: the address for `c` is issued, `c` itself
   * (the value before the increment) is returned, the state becomes
   * `(t, c + 1)` when the file is writable and stays as it was otherwise,
   * and nothing is read from the console. It raises exactly when `c > 0`
   * and `t` has no '@', and then the file is left alone.
   */
  lemma AllocateFromState(file: Option<string>, writable: bool, console: seq<string>, t: string, c: nat)
    requires ParseConfig(file) == Config(Some(t), c)
    ensures var s := Allocate(file, writable, console);
            && s.console == console
            && s.result == Issuance(t, c)
            && (s.result.Raised? <==> c > 0 && '@' !in t)
            && (s.result.Raised? || !writable ==> s.file == file)
            && (!s.result.Raised? && writable ==> ParseConfig(s.file) == Config(Some(t), c + 1))
  {
    IssuedAddress(t, c);
    if writable {
      ParsedTemplateWellFormed(file);
      ConfigRoundTrip(t, c + 1, None);
    }
  }

  /**
   * With no stored state the operator is asked for a template. End of
   * input raises; a template without '@' is refused and nothing is
   * written; otherwise the template itself is issued with counter 0 and
   * the state becomes `(template, 1)`.
   */
  lemma AllocateFirstTime(file: Option<string>, writable: bool, console: seq<string>)
    requires ParseConfig(file).template.None?
    ensures var s := Allocate(file, writable, console);
            && (console == [] ==> s == AllocStep(Raised, file, console))
            && (console != [] && '@' !in Strip(console[0]) ==>
                  s == AllocStep(InvalidTemplate, file, console[1..]))
            && (console != [] && '@' in Strip(console[0]) ==>
                  && s.result == Issued(Strip(console[0]), 0)
                  && s.console == console[1..]
                  && (writable ==> s.file == Some(ConfigText(Strip(console[0]), 1, None)))
                  && (!writable ==> s.file == file))
  {
  }

  /**
   * The stored state after a first-time allocation reads back as
   * `(template, 1)`, provided the typed line holds no line break.
   */
  lemma FirstTimeState(file: Option<string>, console: seq<string>)
    requires ParseConfig(file).template.None?
    requires console != [] && '@' in Strip(console[0])
    requires '\n' !in console[0] && '\r' !in console[0]
    ensures var s := Allocate(file, true, console);
            && s.result == Issued(Strip(console[0]), 0)
            && s.console == console[1..]
            && ParseConfig(s.file) == Config(Some(Strip(console[0])), 1)
  {
    var t := Strip(console[0]);
    StripWithin(console[0]);
    assert t != [];
    ConfigRoundTrip(t, 1, None);
  }

  /** `n` allocations in a row: their results and the file after the last one. */
  function AllocateTimes(file: Option<string>, writable: bool, console: seq<string>, n: nat)
    : (r: (seq<AllocationResult>, Option<string>))
    ensures |r.0| == n
    decreases n, 0
  {
    if n == 0 then ([], file) else After(Allocate(file, writable, console), writable, n - 1)
  }

  /** The result of one allocation `s`, followed by `m` more from the state it left. */
  function After(s: AllocStep, writable: bool, m: nat): (r: (seq<AllocationResult>, Option<string>))
    ensures |r.0| == m + 1
    decreases m, 1
  {
    var rest := AllocateTimes(s.file, writable, s.console, m);
    ([s.result] + rest.0, rest.1)
  }

  /**
   * Counter monotonicity: from a stored state `(t, c)` with '@' in `t`,
   * `n` allocations issue the addresses for `c, c + 1, …, c + n - 1` in
   * that order and leave the state `(t, c + n)`: the counter never skips
   * and never goes back.
   */
  lemma ConsecutiveAllocations(file: Option<string>, console: seq<string>, n: nat, t: string, c: nat)
    requires ParseConfig(file) == Config(Some(t), c) && '@' in t
    ensures var r := AllocateTimes(file, true, console, n);
            && (forall i :: 0 <= i < n ==> r.0[i] == Issuance(t, c + i))
            && ParseConfig(r.1) == Config(Some(t), c + n)
  {
    RunResults(file, console, n, t, c);
    StateAfterRun(file, console, n, t, c);
  }

  /** The results of `n` allocations from `(t, c)` are the issuances for `c, …, c + n - 1`. */
  lemma RunResults(file: Option<string>, console: seq<string>, n: nat, t: string, c: nat)
    requires ParseConfig(file) == Config(Some(t), c) && '@' in t
    ensures forall i :: 0 <= i < n ==> AllocateTimes(file, true, console, n).0[i] == Issuance(t, c + i)
  {
    forall i | 0 <= i < n
      ensures AllocateTimes(file, true, console, n).0[i] == Issuance(t, c + i)
    {
      ResultInRun(file, console, n, t, c, i, c + i);
    }
  }

  /** One allocation from `(t, c)` with '@' in `t` on a writable file. */
  lemma StepFromState(file: Option<string>, console: seq<string>, t: string, c: nat)
    requires ParseConfig(file) == Config(Some(t), c) && '@' in t
    ensures var s := Allocate(file, true, console);
            && s.result == Issuance(t, c)
            && s.console == console
            && ParseConfig(s.file) == Config(Some(t), c + 1)
  {
    AllocateFromState(file, true, console, t, c);
  }

  /** The `i`-th of `n` allocations from `(t, c)` issues the address for `k == c + i`. */
  lemma ResultInRun(file: Option<string>, console: seq<string>, n: nat, t: string, c: nat, i: nat, k: nat)
    requires ParseConfig(file) == Config(Some(t), c) && '@' in t && i < n && k == c + i
    ensures AllocateTimes(file, true, console, n).0[i] == Issuance(t, k)
    decreases i, 1
  {
    if i == 0 {
      FirstResult(file, console, n, t, k);
    } else {
      LaterResult(file, console, n, t, c, i, k);
    }
  }

  /** The first of `n` allocations from `(t, k)` issues the address for `k`. */
  lemma FirstResult(file: Option<string>, console: seq<string>, n: nat, t: string, k: nat)
    requires ParseConfig(file) == Config(Some(t), k) && '@' in t && 0 < n
    ensures AllocateTimes(file, true, console, n).0[0] == Issuance(t, k)
  {
    StepFromState(file, console, t, k);
  }

  /** A later result is the one before it in the run from the next state. */
  lemma LaterResult(file: Option<string>, console: seq<string>, n: nat, t: string, c: nat, i: nat, k: nat)
    requires ParseConfig(file) == Config(Some(t), c) && '@' in t && 0 < i < n && k == c + i
    ensures AllocateTimes(file, true, console, n).0[i] == Issuance(t, k)
    decreases i, 0
  {
    var s := Allocate(file, true, console);
    StepFromState(file, console, t, c);
    ResultInRun(s.file, s.console, n - 1, t, c + 1, i - 1, k);
    ShiftedResult(file, console, n, i, Issuance(t, k));
  }

  /** The `i`-th result of a run is the `(i - 1)`-th of the run from the next state. */
  lemma ShiftedResult(file: Option<string>, console: seq<string>, n: nat, i: nat, x: AllocationResult)
    requires 0 < i < n
    requires var s := Allocate(file, true, console);
             AllocateTimes(s.file, true, s.console, n - 1).0[i - 1] == x
    ensures AllocateTimes(file, true, console, n).0[i] == x
  {
    AllocateTimesStep(file, true, console, n);
  }

  /** After `n` allocations from `(t, c)` the stored state is `(t, c + n)`. */
  lemma StateAfterRun(file: Option<string>, console: seq<string>, n: nat, t: string, c: nat)
    requires ParseConfig(file) == Config(Some(t), c) && '@' in t
    ensures ParseConfig(AllocateTimes(file, true, console, n).1) == Config(Some(t), c + n)
    decreases n, 1
  {
    if n > 0 {
      LaterState(file, console, n, t, c);
    }
  }

  /** The state after `n > 0` allocations is the state after `n - 1` from the next state. */
  lemma LaterState(file: Option<string>, console: seq<string>, n: nat, t: string, c: nat)
    requires ParseConfig(file) == Config(Some(t), c) && '@' in t && n > 0
    ensures ParseConfig(AllocateTimes(file, true, console, n).1) == Config(Some(t), c + n)
    decreases n, 0
  {
    var s := Allocate(file, true, console);
    StepFromState(file, console, t, c);
    StateAfterRun(s.file, s.console, n - 1, t, c + 1);
    AllocateTimesStep(file, true, console, n);
  }

  /** One unfolding of `AllocateTimes`: the first result, then the rest from the new file. */
  lemma AllocateTimesStep(file: Option<string>, writable: bool, console: seq<string>, n: nat)
    requires n > 0
    ensures var s := Allocate(file, writable, console);
            var rest := AllocateTimes(s.file, writable, s.console, n - 1);
            AllocateTimes(file, writable, console, n) == ([s.result] + rest.0, rest.1)
  {
  }

  /**
   * From scratch: the first allocation issues the bare template, each later
   * one the template with the pre-increment counter spliced in, and after
   * `n` allocations the stored counter is `n`.
   */
  lemma AllocationsFromScratch(file: Option<string>, line: string, more: seq<string>, n: nat)
    requires ParseConfig(file).template.None?
    requires '@' in Strip(line) && '\n' !in line && '\r' !in line
    requires n >= 1
    ensures var r := AllocateTimes(file, true, [line] + more, n);
            && r.0[0] == Issued(Strip(line), 0)
            && (forall i :: 0 <= i < n ==> r.0[i] == Issuance(Strip(line), i))
            && ParseConfig(r.1) == Config(Some(Strip(line)), n)
  {
    ScratchResults(file, line, more, n);
    ScratchFirst(file, line, more, n);
    ScratchState(file, line, more, n);
  }

  /** The results of `n` allocations from scratch are the issuances for `0, …, n - 1`. */
  lemma ScratchResults(file: Option<string>, line: string, more: seq<string>, n: nat)
    requires ParseConfig(file).template.None?
    requires '@' in Strip(line) && '\n' !in line && '\r' !in line
    ensures forall i :: 0 <= i < n ==>
              AllocateTimes(file, true, [line] + more, n).0[i] == Issuance(Strip(line), i)
  {
    forall i | 0 <= i < n
      ensures AllocateTimes(file, true, [line] + more, n).0[i] == Issuance(Strip(line), i)
    {
      ScratchResult(file, line, more, n, i);
    }
  }

  /** The `i`-th allocation from scratch issues the address for counter `i`. */
  lemma ScratchResult(file: Option<string>, line: string, more: seq<string>, n: nat, i: nat)
    requires ParseConfig(file).template.None?
    requires '@' in Strip(line) && '\n' !in line && '\r' !in line
    requires i < n
    ensures AllocateTimes(file, true, [line] + more, n).0[i] == Issuance(Strip(line), i)
  {
    if i == 0 {
      ScratchFirst(file, line, more, n);
      assert AutoAddress(Strip(line), 0) == Some(Strip(line));
    } else {
      ScratchLater(file, line, more, n, i);
    }
  }

  /** The first allocation from scratch issues the typed template itself with counter 0. */
  lemma ScratchFirst(file: Option<string>, line: string, more: seq<string>, n: nat)
    requires ParseConfig(file).template.None?
    requires '@' in Strip(line) && '\n' !in line && '\r' !in line
    requires 0 < n
    ensures AllocateTimes(file, true, [line] + more, n).0[0] == Issued(Strip(line), 0)
  {
    FirstTimeState(file, [line] + more);
    AllocateTimesStep(file, true, [line] + more, n);
  }

  /** A later allocation from scratch continues the run from `(template, 1)`. */
  lemma ScratchLater(file: Option<string>, line: string, more: seq<string>, n: nat, i: nat)
    requires ParseConfig(file).template.None?
    requires '@' in Strip(line) && '\n' !in line && '\r' !in line
    requires 0 < i < n
    ensures AllocateTimes(file, true, [line] + more, n).0[i] == Issuance(Strip(line), i)
  {
    var s := Allocate(file, true, [line] + more);
    FirstTimeState(file, [line] + more);
    ResultInRun(s.file, s.console, n - 1, Strip(line), 1, i - 1, i);
    ShiftedResult(file, [line] + more, n, i, Issuance(Strip(line), i));
  }

  /** After `n` allocations from scratch the stored state is `(template, n)`. */
  lemma ScratchState(file: Option<string>, line: string, more: seq<string>, n: nat)
    requires ParseConfig(file).template.None?
    requires '@' in Strip(line) && '\n' !in line && '\r' !in line
    requires n >= 1
    ensures ParseConfig(AllocateTimes(file, true, [line] + more, n).1) == Config(Some(Strip(line)), n)
  {
    var console := [line] + more;
    var s := Allocate(file, true, console);
    FirstTimeState(file, console);
    StateAfterRun(s.file, s.console, n - 1, Strip(line), 1);
    AllocateTimesStep(file, true, console, n);
  }

  /**
   * A fresh file and the template `user@test.com`: the first two
   * allocations hand out `user@test.com` with counter 0 and
   * `user00001@test.com` with counter 1.
   */
  lemma FreshTemplateScenario(t: string)
    requires t == "user@test.com"
    ensures AllocateTimes(None, true, [t], 2).0 == [Issued(t, 0), Issued("user00001@test.com", 1)]
  {
    ExampleTemplateShape(t);
    ExampleAddresses();
    TwoFromScratch(t, "user00001@test.com");
  }

  /** `user@test.com` has an '@', no line break and no surrounding blanks. */
  lemma ExampleTemplateShape(t: string)
    requires t == "user@test.com"
    ensures t != [] && !IsSpace(t[0]) && !IsSpace(t[|t| - 1])
    ensures '@' in t && '\n' !in t && '\r' !in t
  {
    assert t[0] == 'u' && t[12] == 'm' && t[4] == '@';
  }

  /** The first two allocations from a fresh file for a template typed without surrounding blanks. */
  lemma TwoFromScratch(t: string, second: string)
    requires t != [] && !IsSpace(t[0]) && !IsSpace(t[|t| - 1])
    requires '@' in t && '\n' !in t && '\r' !in t
    requires AutoAddress(t, 1) == Some(second)
    ensures AllocateTimes(None, true, [t], 2).0 == [Issued(t, 0), Issued(second, 1)]
  {
    StripUnchanged(t);
    assert [t] == [t] + [];
    ScratchFirst(None, t, [], 2);
    ScratchLater(None, t, [], 2, 1);
    var r := AllocateTimes(None, true, [t], 2).0;
    assert r[0] == Issued(t, 0);
    assert r[1] == Issued(second, 1);
  }

  /** The address `Issuance` hands back when the template has an '@'. */
  lemma IssuanceIssued(t: string, k: nat)
    requires '@' in t
    ensures AutoAddress(t, k).Some? && Issuance(t, k) == Issued(AutoAddress(t, k).value, k)
  {
  }

  /** No address is issued twice by a run of allocations over one template. */
  lemma IssuedAddressesDistinct(file: Option<string>, console: seq<string>, n: nat, t: string, c: nat, i: nat, j: nat)
    requires ParseConfig(file) == Config(Some(t), c) && '@' in t
    requires i < j < n
    ensures var r := AllocateTimes(file, true, console, n);
            r.0[i].Issued? && r.0[j].Issued? && r.0[i].email != r.0[j].email
  {
    ResultInRun(file, console, n, t, c, i, c + i);
    ResultInRun(file, console, n, t, c, j, c + j);
    DistinctResults(AllocateTimes(file, true, console, n).0, t, c, i, j);
  }

  /** Results for two different counters of one template are two different addresses. */
  lemma DistinctResults(r: seq<AllocationResult>, t: string, c: nat, i: nat, j: nat)
    requires '@' in t && i < j < |r| && r[i] == Issuance(t, c + i) && r[j] == Issuance(t, c + j)
    ensures r[i].Issued? && r[j].Issued? && r[i].email != r[j].email
  {
    IssuanceIssued(t, c + i);
    IssuanceIssued(t, c + j);
    AddressesDistinct(t, c + i, c + j);
  }

  /**
   * A registration record at the top of the file makes the next allocation
   * start over: the operator is asked for a template again and the file is
   * overwritten with the bare state, so the records it held are gone.
   */
  lemma RecordResetsAllocator(timestamp: string, email: string, username: string, password: string,
                              rest: string, console: seq<string>)
    requires '\n' !in timestamp && '\r' !in timestamp
    requires console != [] && '@' in Strip(console[0])
    ensures var file := Some(RecordBlock(timestamp, email, username, password) + rest);
            var s := Allocate(file, true, console);
            && s.result == Issued(Strip(console[0]), 0)
            && s.file == Some(ConfigText(Strip(console[0]), 1, None))
            && s.console == console[1..]
  {
    RecordBreaksConfig(timestamp, email, username, password, rest);
    AllocateFirstTime(Some(RecordBlock(timestamp, email, username, password) + rest), true, console);
  }

  /**
   * The template check only asks for some '@': a template with two of them
   * is accepted, and later addresses splice the counter in before the
   * first one.
   */
  lemma TemplateCheckIsWeak(file: Option<string>, x: string, y: string, z: string, more: seq<string>, c: nat)
    requires ParseConfig(file).template.None?
    requires '@' !in x && x != [] && !IsSpace(x[0]) && z != [] && !IsSpace(z[|z| - 1])
    requires c > 0
    ensures var t := x + "@" + (y + "@" + z);
            && Allocate(file, true, [t] + more).result == Issued(t, 0)
            && AutoAddress(t, c) == Some(x + Hex5(c) + "@" + (y + "@" + z))
  {
    var t := x + "@" + (y + "@" + z);
    assert Strip(([t] + more)[0]) == t && '@' in t by {
      assert t[0] == x[0] && t[|t| - 1] == z[|z| - 1];
      StripUnchanged(t);
      assert t[|x|] == '@';
    }
    AllocateFirstTime(file, true, [t] + more);
    SplicedAddress(x, y + "@" + z, c);
  }

  /** A file that cannot be written never advances: the same address is issued again. */
  lemma ReadOnlyRepeats(file: Option<string>, console: seq<string>)
    requires ParseConfig(file).template.Some?
    ensures var s := Allocate(file, false, console);
            s.file == file && Allocate(s.file, false, s.console).result == s.result
  {
  }
}
