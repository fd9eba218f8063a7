/**
 * The text of `email_config.txt`, the one file the registration keeps:
 * the allocator state written by `_write_email_config` and read by
 * `_read_email_config`, the registration record blocks that
 * `_save_registration_record` puts in front of it, and the address rule of
 * `_generate_auto_email`.
 */
module EmailConfig {
  import opened Common
  import opened Text

  // ---------------------------------------------------------------------
  // Allocator state: template and counter
  // ---------------------------------------------------------------------

  /** The pair `_read_email_config` returns: `(template, counter)`, or `(None, 0)`. */
  datatype Config = Config(template: Option<string>, counter: nat)

  /** A first line that survives being written and read back. */
  predicate WellFormedTemplate(t: string) {
    t != [] && !IsSpace(t[0]) && '\n' !in t && '\r' !in t
  }

  /** `f.read().strip().split('\n')` on the raw file text. */
  function Lines(text: string): (r: seq<string>)
    ensures |r| >= 1
  {
    Split(Strip(Newlines(text)), '\n')
  }

  /** The first piece of a split is a prefix of the text. */
  lemma {:induction false} FirstPiecePrefix(s: string, sep: char)
    ensures var p := Split(s, sep)[0]; |p| <= |s| && p == s[..|p|]
    decreases |s|
  {
    if s != [] {
      FirstPiecePrefix(s[1..], sep);
      SplitCons(s[0], s[1..], sep);
      assert s == [s[0]] + s[1..];
    }
  }

  /** Whenever there are two lines, the first is a well-formed template. */
  lemma FirstLineWellFormed(text: string)
    requires |Lines(text)| >= 2
    ensures WellFormedTemplate(Lines(text)[0])
  {
    var x := Strip(Newlines(text));
    var first := Lines(text)[0];
    NewlinesNoReturn(text);
    StripWithin(Newlines(text));
    SplitPiecesFree(x, '\n');
    assert '\r' !in x;
    assert x != [];
    assert x == [x[0]] + x[1..];
    SplitCons(x[0], x[1..], '\n');
    FirstPiecePrefix(x, '\n');
    assert first == x[..|first|];
    assert forall c :: c in first ==> c in x;
  }

  /**
   * `_read_email_config`: an absent file, fewer than two lines, or a
   * second line that is not a number all read as `(None, 0)`.
   */
  function ParseConfig(file: Option<string>): (r: Config)
    ensures r.template.None? ==> r.counter == 0
  {
    match file
    case None => Config(None, 0)
    case Some(text) =>
      var lines := Lines(text);
      if |lines| >= 2 then
        match ParseDecimal(lines[1])
        case Some(n) => Config(Some(lines[0]), n)
        case None => Config(None, 0)
      else Config(None, 0)
  }

  /**
   * A counter line holding an information separator (U+001C to U+001F)
   * makes `int()` raise, so the file reads as no state, although
   * `strip()` would have removed the character.
   */
  lemma SeparatorInCounterLine(text: string, i: nat)
    requires |Lines(text)| >= 2 && i < |Lines(text)[1]| && IsSeparatorControl(Lines(text)[1][i])
    ensures ParseConfig(Some(text)) == Config(None, 0)
  {
    SeparatorNotANumber(Lines(text)[1], i);
  }

  /**
   * A file of three lines whose second holds an information separator
   * reads as no state, whatever the template.
   */
  lemma SeparatorCounterFile(t: string, d: string, x: string, i: nat)
    requires WellFormedTemplate(t)
    requires '\n' !in d && '\r' !in d && i < |d| && IsSeparatorControl(d[i])
    requires x != [] && '\r' !in x && !IsSpace(x[|x| - 1])
    ensures ParseConfig(Some(t + "\n" + d + "\n" + x)) == Config(None, 0)
  {
    var text := t + "\n" + d + "\n" + x;
    assert text == t + ['\n'] + d + ("\n" + x);
    assert '\r' !in text;
    NewlinesUnchanged(text);
    StripUnchanged(text);
    TwoPieces(t, d, "\n" + x, '\n');
    SeparatorInCounterLine(text, i);
  }

  /** `a@b`, then `5` followed by U+001C, then `x`: no state. */
  lemma ExampleSeparatorCounter(t: string, d: string, x: string)
    requires t == "a@b" && d == "5\U{1C}" && x == "x"
    ensures ParseConfig(Some(t + "\n" + d + "\n" + x)) == Config(None, 0)
  {
    assert t[0] == 'a';
    SeparatorCounterFile(t, d, x, 1);
  }

  /**
   * A template read from the file is always one that survives being
   * written back: non-empty, no leading blank, no line break.
   */
  lemma ParsedTemplateWellFormed(file: Option<string>)
    requires ParseConfig(file).template.Some?
    ensures WellFormedTemplate(ParseConfig(file).template.value)
  {
    FirstLineWellFormed(file.value);
  }

  /** The text `_write_email_config(template, counter, current_email)` writes. */
  function ConfigText(template: string, counter: nat, current: Option<string>): (r: string) {
    template + "\n" + DecimalString(counter)
    + (if current.Some? && current.value != "" then "\n" + current.value else "")
  }

  /**
   * Reading back what was written gives the same template and counter,
   * whatever the optional third line holds.
   */
  lemma ConfigRoundTrip(t: string, c: nat, current: Option<string>)
    requires WellFormedTemplate(t)
    ensures ParseConfig(Some(ConfigText(t, c, current))) == Config(Some(t), c)
  {
    var d := DecimalString(c);
    var tail := if current.Some? && current.value != "" then "\n" + current.value else "";
    var p := t + "\n" + d;
    DecimalDigits(c);
    assert ConfigText(t, c, current) == p + tail;
    assert forall i :: 0 <= i < |d| ==> d[i] != '\r' && d[i] != '\n';
    assert p[|p| - 1] == d[|d| - 1];
    ReadKeepsPrefix(p, tail);
    StartsWithBreak(tail);
    var tr := TrimRight(Newlines(tail));
    assert p + tr == t + ['\n'] + d + tr;
    TwoPieces(t, d, tr, '\n');
    ParseDecimalString(c);
  }

  /** Malformed content: a file with a single line never holds a state. */
  lemma OneLineHasNoState(text: string)
    requires '\n' !in Strip(Newlines(text))
    ensures ParseConfig(Some(text)) == Config(None, 0)
  {
    SplitWithoutSep(Strip(Newlines(text)), '\n');
  }

  // ---------------------------------------------------------------------
  // Registration records
  // ---------------------------------------------------------------------

  const RecordHeader := "[注册记录 - "

  /** The block `_save_registration_record` builds for one account. */
  function RecordBlock(timestamp: string, email: string, username: string, password: string): (r: string) {
    RecordHeader + timestamp + "]\n"
    + "邮箱: " + email + "\n"
    + "用户名: " + username + "\n"
    + "密码: " + password + "\n"
    + Repeat('=', 50) + "\n\n"
  }

  /** The file text after a successful record write: the block, then the old text as read. */
  function WithRecord(file: Option<string>, block: string): (r: string) {
    block + match file case None => "" case Some(text) => Newlines(text)
  }

  /** The record goes in front; old text without carriage returns follows byte for byte. */
  lemma RecordPrepended(file: Option<string>, block: string)
    requires file.Some? ==> '\r' !in file.value
    ensures WithRecord(file, block) == block + (if file.Some? then file.value else "")
  {
    if file.Some? {
      NewlinesUnchanged(file.value);
    }
  }

  /**
   * Two records in a row: the newer block first, then the older one, then
   * the original text as read.
   */
  lemma RecordsNewestFirst(file: Option<string>, older: string, newer: string)
    requires '\r' !in older
    ensures WithRecord(Some(WithRecord(file, older)), newer)
            == newer + older + WithRecord(file, [])
  {
    var rest := match file case None => "" case Some(text) => Newlines(text);
    if file.Some? {
      NewlinesNoReturn(file.value);
    }
    assert '\r' !in older + rest;
    NewlinesUnchanged(older + rest);
    assert WithRecord(file, []) == rest;
  }

  /** The lines of a file whose first line is clean and whose second starts with `c`. */
  lemma SecondLineStart(first: string, c: char, rest: string)
    requires first != [] && !IsSpace(first[0]) && '\n' !in first && '\r' !in first
    requires !IsSpace(c) && c != '\r'
    ensures var lines := Lines(first + "\n" + [c] + rest);
            |lines| >= 2 && lines[1] != [] && lines[1][0] == c
  {
    var p := first + "\n" + [c];
    var z := TrimRight(Newlines(rest));
    assert Lines(first + "\n" + [c] + rest) == Split(first + ['\n'] + ([c] + z), '\n') by {
      assert first + "\n" + [c] + rest == p + rest;
      assert p[0] == first[0] && p[|p| - 1] == c;
      assert '\r' !in p;
      ReadKeepsPrefix(p, rest);
      assert p + z == first + ['\n'] + ([c] + z);
    }
    assert Split(first + ['\n'] + ([c] + z), '\n') == [first] + Split([c] + z, '\n') by {
      SplitAround(first, [c] + z, '\n');
      SplitWithoutSep(first, '\n');
    }
    SplitCons(c, z, '\n');
  }

  /**
   * A file whose second line starts with something other than a digit or
   * blank holds no allocator state.
   */
  lemma SecondLineNotNumber(first: string, c: char, rest: string)
    requires first != [] && !IsSpace(first[0]) && '\n' !in first && '\r' !in first
    requires !IsSpace(c) && !IsDigit(c) && c != '\r'
    ensures ParseConfig(Some(first + "\n" + [c] + rest)) == Config(None, 0)
  {
    SecondLineStart(first, c, rest);
    var second := Lines(first + "\n" + [c] + rest)[1];
    assert second == [c] + second[1..];
    NotANumber(c, second[1..]);
  }

  /**
   * A record at the top destroys the allocator state: its first line is the
   * header and its second line `邮箱: …` is no number, so the file reads as
   * `(None, 0)` whatever followed it.
   */
  lemma RecordBreaksConfig(timestamp: string, email: string, username: string, password: string, rest: string)
    requires '\n' !in timestamp && '\r' !in timestamp
    ensures ParseConfig(Some(RecordBlock(timestamp, email, username, password) + rest)) == Config(None, 0)
  {
    var h := RecordHeader + timestamp + "]";
    var y := "箱: " + email + "\n" + "用户名: " + username + "\n" + "密码: " + password + "\n"
             + Repeat('=', 50) + "\n\n" + rest;
    assert RecordBlock(timestamp, email, username, password) + rest == h + "\n" + ['邮'] + y;
    SecondLineNotNumber(h, '邮', y);
  }

  // ---------------------------------------------------------------------
  // Issued addresses
  // ---------------------------------------------------------------------

  /** `s.split(sep, 1)` unpacked into two names; None where the unpacking raises. */
  function SplitAtFirst(s: string, sep: char): (r: Option<(string, string)>)
    ensures r.Some? <==> sep in s
    ensures r.Some? ==> s == r.value.0 + [sep] + r.value.1 && sep !in r.value.0
    decreases |s|
  {
    if s == [] then None
    else if s[0] == sep then Some(([], s[1..]))
    else
      match SplitAtFirst(s[1..], sep)
      case None => None
      case Some(parts) => Some(([s[0]] + parts.0, parts.1))
  }

  /** Only one way to cut at the first occurrence of a character. */
  lemma FirstCutUnique(a1: string, b1: string, a2: string, b2: string, sep: char)
    requires a1 + [sep] + b1 == a2 + [sep] + b2
    requires sep !in a1 && sep !in a2
    ensures a1 == a2 && b1 == b2
  {
    var s := a1 + [sep] + b1;
    assert s[|a1|] == sep && s[|a2|] == sep;
    assert forall k :: 0 <= k < |a1| ==> s[k] == a1[k];
    assert forall k :: 0 <= k < |a2| ==> s[k] == a2[k];
    assert |a1| == |a2|;
    assert a1 == s[..|a1|] && a2 == s[..|a2|];
    assert b1 == s[|a1| + 1..] && b2 == s[|a2| + 1..];
  }

  /**
   * The address `_generate_auto_email` issues for a counter: the template
   * itself for 0, otherwise the counter in `05X` form spliced in before the
   * first '@'. None where the source raises (no '@' to split at).
   */
  function AutoAddress(template: string, counter: nat): (r: Option<string>)
  {
    if counter == 0 then Some(template)
    else
      match SplitAtFirst(template, '@')
      case None => None
      case Some(parts) => Some(parts.0 + Hex5(counter) + "@" + parts.1)
  }

  /**
   * The issued address: the template verbatim for counter 0; otherwise the
   * text before the first '@', the counter as at least five upper-case hex
   * digits (exactly five below 0x100000), '@', and everything after the
   * first '@'. A template without '@' cannot be split.
   */
  lemma IssuedAddress(template: string, counter: nat)
    ensures counter == 0 ==> AutoAddress(template, counter) == Some(template)
    ensures counter > 0 && '@' !in template ==> AutoAddress(template, counter) == None
    ensures forall local, domain ::
              counter > 0 && template == local + "@" + domain && '@' !in local ==>
                AutoAddress(template, counter) == Some(local + Hex5(counter) + "@" + domain)
    ensures counter > 0 && '@' in template ==>
              var a := AutoAddress(template, counter).value;
              |a| == |template| + |Hex5(counter)| && |Hex5(counter)| >= 5 && AllHex(Hex5(counter))
              && (counter < 0x100000 ==> |Hex5(counter)| == 5)
  {
    Hex5Length(counter);
    forall local, domain |
      counter > 0 && template == local + "@" + domain && '@' !in local
      ensures AutoAddress(template, counter) == Some(local + Hex5(counter) + "@" + domain)
    {
      SplicedAddress(local, domain, counter);
    }
  }

  /** The counter goes in before the first '@', whatever follows it. */
  lemma SplicedAddress(local: string, domain: string, counter: nat)
    requires counter > 0 && '@' !in local
    ensures AutoAddress(local + "@" + domain, counter) == Some(local + Hex5(counter) + "@" + domain)
  {
    var template := local + "@" + domain;
    assert template[|local|] == '@';
    var parts := SplitAtFirst(template, '@').value;
    FirstCutUnique(parts.0, parts.1, local, domain, '@');
  }

  /**
   * One template serves any number of identities: different counters give
   * different addresses.
   */
  lemma AddressesDistinct(template: string, c1: nat, c2: nat)
    requires '@' in template && c1 != c2
    ensures AutoAddress(template, c1).value != AutoAddress(template, c2).value
  {
    var parts := SplitAtFirst(template, '@').value;
    if c1 == 0 || c2 == 0 {
      var c := if c1 == 0 then c2 else c1;
      Hex5Length(c);
      assert |AutoAddress(template, c).value| == |parts.0| + |Hex5(c)| + 1 + |parts.1|;
    } else {
      DistinctHexParts(parts.0, parts.1, c1, c2);
    }
  }

  /** Splicing two different counters into one template gives two different texts. */
  lemma DistinctHexParts(local: string, domain: string, c1: nat, c2: nat)
    requires c1 != c2
    ensures local + Hex5(c1) + "@" + domain != local + Hex5(c2) + "@" + domain
  {
    var h1, h2 := Hex5(c1), Hex5(c2);
    Hex5RoundTrip(c1);
    Hex5RoundTrip(c2);
    assert h1 != h2;
    var a1 := local + h1 + "@" + domain;
    var a2 := local + h2 + "@" + domain;
    if |h1| == |h2| {
      assert a1[|local|..|local| + |h1|] == h1;
      assert a2[|local|..|local| + |h2|] == h2;
    } else {
      assert |a1| != |a2|;
    }
  }

  /** Template `user@test.com`: counter 0 gives it back, counter 1 gives `user00001@test.com`. */
  lemma ExampleAddresses()
    ensures AutoAddress("user@test.com", 0) == Some("user@test.com")
    ensures AutoAddress("user@test.com", 1) == Some("user00001@test.com")
  {
    var local, domain := "user", "test.com";
    assert "user@test.com" == local + "@" + domain;
    assert Hex5(1) == "00001" by {
      assert HexString(1) == ['1'];
      assert Repeat('0', 4) == "0000";
    }
    assert "user00001@test.com" == local + "00001" + "@" + domain;
    SplicedAddress(local, domain, 1);
  }
}
