/** postgresql.conf: escaping values, writing settings, and reading them back. */
module PostgresConfs {
  import opened Options
  import opened Seqs

  // --- characters

  /** Unicode White_Space. */
  predicate IsSpace(c: char) {
    var n := c as int;
    || 0x09 <= n <= 0x0d || n == 0x20 || n == 0x85 || n == 0xa0 || n == 0x1680 || 0x2000 <= n <= 0x200a
    || n == 0x2028 || n == 0x2029 || n == 0x202f || n == 0x205f || n == 0x3000
  }

  predicate IsDigit(c: char) { '0' <= c <= '9' }

  predicate IsLetter(c: char) { 'a' <= c <= 'z' || 'A' <= c <= 'Z' }

  /** What is a word character is left open, but for these. */
  ghost predicate Sane(word: char -> bool) {
    !word('=') && !word('#') && forall c :: IsSpace(c) ==> !word(c)
  }

  // --- escaping

  /** ^[-+]?[0-9]+[a-zA-Z]*$ */
  predicate IsInteger(s: string) {
    var digits := if s != "" && (s[0] == '-' || s[0] == '+') then s[1..] else s;
    digits != "" && IsDigit(digits[0]) && DigitsThenLetters(digits)
  }

  predicate DigitsThenLetters(s: string) {
    s == "" || (IsDigit(s[0]) && DigitsThenLetters(s[1..])) || AllLetters(s)
  }

  predicate AllLetters(s: string) {
    forall i :: 0 <= i < |s| ==> IsLetter(s[i])
  }

  /** ^[a-zA-Z][a-zA-Z0-9]*$ */
  predicate IsWordString(s: string) {
    s != "" && IsLetter(s[0]) && forall i :: 0 <= i < |s| ==> IsLetter(s[i]) || IsDigit(s[i])
  }

  predicate NeedsNoQuotes(s: string) {
    IsInteger(s) || IsWordString(s)
  }

  /** Replace every occurrence of a character. */
  function Replace(s: string, c: char, by_: string): string {
    if s == "" then "" else (if s[0] == c then by_ else [s[0]]) + Replace(s[1..], c, by_)
  }

  function Quoted(s: string): string {
    Replace(Replace(Replace(s, '\\', "\\\\"), '\n', "\\n"), '\'', "''")
  }

  function Escape(s: string): string {
    if NeedsNoQuotes(s) then s else "'" + Quoted(s) + "'"
  }

  /** What one character becomes within quotes. */
  function QuotedChar(c: char): string {
    if c == '\\' then "\\\\" else if c == '\n' then "\\n" else if c == '\'' then "''" else [c]
  }

  lemma {:induction false} ReplaceAppend(a: string, b: string, c: char, by_: string)
    ensures Replace(a + b, c, by_) == Replace(a, c, by_) + Replace(b, c, by_)
    decreases |a|
  {
    if a == "" {
      assert a + b == b;
    } else {
      ReplaceAppend(a[1..], b, c, by_);
      assert (a + b)[1..] == a[1..] + b;
      Reassociate(if a[0] == c then by_ else [a[0]], Replace(a[1..], c, by_), Replace(b, c, by_));
    }
  }

  lemma ReplaceShort(a: char, b: char, c: char, by_: string)
    ensures Replace([a], c, by_) == if a == c then by_ else [a]
    ensures Replace([a, b], c, by_) == (if a == c then by_ else [a]) + if b == c then by_ else [b]
  {
    assert [a][1..] == "" && [a, b][1..] == [b] && [b][1..] == "";
  }

  function Backslashed(c: char): string {
    if c == '\\' then "\\\\" else [c]
  }

  function Unbroken(c: char): string {
    if c == '\n' then "\\n" else Backslashed(c)
  }

  lemma SecondPass(c: char, rest: string)
    ensures Replace(Backslashed(c) + rest, '\n', "\\n") == Unbroken(c) + Replace(rest, '\n', "\\n")
  {
    assert "\\\\" == ['\\', '\\'];
    ReplaceAppend(Backslashed(c), rest, '\n', "\\n");
    ReplaceShort(c, c, '\n', "\\n");
  }

  lemma ThirdPass(c: char, rest: string)
    ensures Replace(Unbroken(c) + rest, '\'', "''") == QuotedChar(c) + Replace(rest, '\'', "''")
  {
    assert "\\\\" == ['\\', '\\'] && "\\n" == ['\\', 'n'];
    ReplaceAppend(Unbroken(c), rest, '\'', "''");
    ReplaceShort(c, c, '\'', "''");
    ReplaceShort('\\', 'n', '\'', "''");
  }

  /** The three replacements in turn do to each character what QuotedChar does. */
  lemma QuotedStep(s: string)
    requires s != ""
    ensures Quoted(s) == QuotedChar(s[0]) + Quoted(s[1..])
  {
    var rest := Replace(s[1..], '\\', "\\\\");
    assert Replace(s, '\\', "\\\\") == Backslashed(s[0]) + rest;
    SecondPass(s[0], rest);
    ThirdPass(s[0], Replace(rest, '\n', "\\n"));
  }

  // --- de-escaping

  /** None where an octal escape is met. */
  function Unquoted(s: string): Option<string> {
    if s == "" then Some("")
    else if s[0] == '\\' then
      if |s| == 1 then Some("")
      else if '0' <= s[1] <= '7' then None
      else Prepend(Unescaped(s[1]), Unquoted(s[2..]))
    else if s[0] == '\'' && |s| > 1 && s[1] == '\'' then Prepend('\'', Unquoted(s[2..]))
    else Prepend(s[0], Unquoted(s[1..]))
  }

  function Unescaped(c: char): char {
    match c
    case 'b' => 8 as char
    case 'f' => 12 as char
    case 'n' => '\n'
    case 'r' => '\r'
    case 't' => '\t'
    case _ => c
  }

  function Prepend(c: char, s: Option<string>): Option<string> {
    if s.None? then None else Some([c] + s.value)
  }

  function Deescape(s: string): Option<string> {
    if |s| >= 2 && s[0] == '\'' && s[|s| - 1] == '\'' then Unquoted(s[1..|s| - 1]) else Some(s)
  }

  /** What is read already, and what the rest comes to. */
  function Joined(out: string, rest: Option<string>): Option<string> {
    if rest.None? then None else Some(out + rest.value)
  }

  lemma JoinStep(out: string, c: char, rest: Option<string>)
    ensures Joined(out, Prepend(c, rest)) == Joined(out + [c], rest)
  {
    if rest.Some? { assert out + ([c] + rest.value) == out + [c] + rest.value; }
  }

  lemma JoinEnds(s: string, rest: Option<string>)
    ensures Joined("", rest) == rest && Joined(s, Some("")) == Some(s)
  {
    assert s + "" == s;
    if rest.Some? { assert "" + rest.value == rest.value; }
  }

  method DeescapeStr(s: string) returns (result: Option<string>)
    ensures result == Deescape(s)
  {
    if |s| < 2 || s[0] != '\'' || s[|s| - 1] != '\'' { return Some(s); }
    var inner, out, i := s[1..|s| - 1], "", 0;
    assert inner[0..] == inner;
    JoinEnds("", Unquoted(inner));
    while i < |inner|
      invariant i <= |inner| && Unquoted(inner) == Joined(out, Unquoted(inner[i..]))
      decreases |inner| - i
    {
      var c := inner[i];
      assert inner[i..][1..] == inner[i + 1..] && (i + 2 <= |inner| ==> inner[i..][2..] == inner[i + 2..]);
      i := i + 1;
      if c == '\\' {
        if i == |inner| { break; }
        if '0' <= inner[i] <= '7' { return None; }
        c := Unescaped(inner[i]);
        i := i + 1;
      } else if c == '\'' && i < |inner| && inner[i] == '\'' {
        i := i + 1;
      }
      JoinStep(out, c, Unquoted(inner[i..]));
      out := out + [c];
    }
    JoinEnds(out, None);
    result := Some(out);
  }

  lemma UnquotedChar(c: char, t: string)
    ensures Unquoted(QuotedChar(c) + t) == Prepend(c, Unquoted(t))
  {
    var s := QuotedChar(c) + t;
    assert s[|QuotedChar(c)|..] == t;
  }

  lemma {:induction false} UnquotedQuoted(s: string)
    ensures Unquoted(Quoted(s)) == Some(s)
    decreases |s|
  {
    if s != "" {
      UnquotedQuoted(s[1..]);
      QuotedStep(s);
      UnquotedChar(s[0], Quoted(s[1..]));
      assert [s[0]] + s[1..] == s;
    }
  }

  /** Every string comes back from escaping. */
  lemma DeescapeEscape(s: string)
    ensures Deescape(Escape(s)) == Some(s)
  {
    if !NeedsNoQuotes(s) {
      UnquotedQuoted(s);
      var e := Escape(s);
      assert e[1..|e| - 1] == Quoted(s);
    }
  }

  // --- lines

  /** The line without its end: \n, or \r\n. */
  function Chomp(line: string): string {
    if line != "" && line[|line| - 1] == '\r' then line[..|line| - 1] else line
  }

  function FirstNewline(text: string): (n: nat)
    ensures n <= |text| && (n < |text| ==> text[n] == '\n') && '\n' !in text[..n]
  {
    if text == "" || text[0] == '\n' then 0
    else
      var n := 1 + FirstNewline(text[1..]);
      assert text[..n] == [text[0]] + text[1..][..n - 1];
      n
  }

  /** BufRead::lines */
  function Lines(text: string): seq<string> {
    if text == "" then []
    else
      var n := FirstNewline(text);
      if n == |text| then [text] else [Chomp(text[..n])] + Lines(text[n + 1..])
  }

  lemma {:induction false} NewlineAfter(line: string, rest: string)
    requires '\n' !in line
    ensures FirstNewline(line + "\n" + rest) == |line|
    decreases |line|
  {
    var text := line + "\n" + rest;
    if line != "" {
      assert text[1..] == line[1..] + "\n" + rest;
      NewlineAfter(line[1..], rest);
    }
  }

  lemma LinesStep(line: string, rest: string)
    requires '\n' !in line
    ensures Lines(line + "\n" + rest) == [Chomp(line)] + Lines(rest)
  {
    var text := line + "\n" + rest;
    NewlineAfter(line, rest);
    assert text[..|line|] == line && text[|line| + 1..] == rest;
  }

  // --- reading

  /** How many leading characters satisfy the test. */
  function Span(test: char -> bool, s: string): (n: nat)
    ensures n <= |s| && (forall i :: 0 <= i < n ==> test(s[i])) && (n < |s| ==> !test(s[n]))
  {
    if s == "" || !test(s[0]) then 0 else 1 + Span(test, s[1..])
  }

  function SkipSpace(s: string): string {
    s[Span(IsSpace, s)..]
  }

  function TrimEnd(s: string): string {
    if s != "" && IsSpace(s[|s| - 1]) then TrimEnd(s[..|s| - 1]) else s
  }

  function Trim(s: string): string {
    TrimEnd(SkipSpace(s))
  }

  predicate NoSpace(s: string) {
    forall i :: 0 <= i < |s| ==> !IsSpace(s[i])
  }

  predicate InName(word: char -> bool, c: char) {
    word(c) || c == '.'
  }

  /** ^((?:\w|\.)+)\s*=\s*(\S+)$ : a name and a raw value. No other split of the line can match, since
      names, spaces and '=' have no characters in common. */
  function ConfLine(word: char -> bool, line: string): Option<(string, string)> {
    var n := Span(c => InName(word, c), line);
    var rest := SkipSpace(line[n..]);
    if n == 0 || rest == "" || rest[0] != '=' then None
    else
      var raw := SkipSpace(rest[1..]);
      if raw == "" || !NoSpace(raw) then None else Some((line[..n], raw))
  }

  type Hash = map<string, string>

  /** What a name and a raw value set. */
  function Assign(hash: Hash, found: Option<(string, string)>): Hash {
    if found.None? then hash
    else
      var val := Deescape(found.value.1);
      if val.None? then hash else hash[found.value.0 := val.value]
  }

  function ReadTrimmed(word: char -> bool, hash: Hash, line: string): Hash {
    if line != "" && line[0] == '#' then hash else Assign(hash, ConfLine(word, line))
  }

  function ReadLine(word: char -> bool, hash: Hash, line: string): Hash {
    ReadTrimmed(word, hash, Trim(line))
  }

  function ReadLines(word: char -> bool, hash: Hash, lines: seq<string>): Hash
    decreases |lines|
  {
    if lines == [] then hash else ReadLines(word, ReadLine(word, hash, lines[0]), lines[1..])
  }

  // --- a written setting read back

  predicate GoodName(word: char -> bool, name: string) {
    name != "" && forall i :: 0 <= i < |name| ==> InName(word, name[i])
  }

  /** A value that survives being written and read: newlines are escaped, other spaces are not. */
  predicate Clean(value: string) {
    forall i :: 0 <= i < |value| ==> IsSpace(value[i]) ==> value[i] == '\n'
  }

  function SetIfClean(hash: Hash, name: string, value: string): Hash {
    if Clean(value) then hash[name := value] else hash
  }

  function LineOf(name: string, value: string): string {
    name + "=" + Escape(value)
  }

  lemma QuotedCharSpaces(c: char)
    ensures '\n' !in QuotedChar(c) && (NoSpace(QuotedChar(c)) <==> Clean([c]))
  {
    assert "\\\\" == ['\\', '\\'] && "\\n" == ['\\', 'n'] && "''" == ['\'', '\''];
    assert Clean([c]) <==> (IsSpace([c][0]) ==> [c][0] == '\n');
    assert NoSpace([c]) <==> !IsSpace([c][0]);
  }

  lemma CleanStep(s: string)
    requires s != ""
    ensures Clean(s) <==> Clean([s[0]]) && Clean(s[1..])
  {
    assert s == [s[0]] + s[1..];
    if Clean(s) {
      forall i | 0 <= i < |s| - 1 ensures IsSpace(s[1..][i]) ==> s[1..][i] == '\n' { assert s[1..][i] == s[i + 1]; }
    }
  }

  lemma {:induction false} QuotedSpaces(s: string)
    ensures '\n' !in Quoted(s) && (NoSpace(Quoted(s)) <==> Clean(s))
    decreases |s|
  {
    if s != "" {
      QuotedSpaces(s[1..]);
      QuotedStep(s);
      NoSpaceAppend(QuotedChar(s[0]), Quoted(s[1..]));
      QuotedCharSpaces(s[0]);
      CleanStep(s);
    }
  }

  lemma NoSpaceAppend(a: string, b: string)
    ensures NoSpace(a + b) <==> NoSpace(a) && NoSpace(b)
  {
    if NoSpace(a + b) {
      forall i | 0 <= i < |a| ensures !IsSpace(a[i]) { assert (a + b)[i] == a[i]; }
      forall i | 0 <= i < |b| ensures !IsSpace(b[i]) { assert (a + b)[|a| + i] == b[i]; }
    }
  }

  lemma {:induction false} DigitsThenLettersShape(s: string)
    requires DigitsThenLetters(s)
    ensures forall i :: 0 <= i < |s| ==> IsLetter(s[i]) || IsDigit(s[i])
    decreases |s|
  {
    if s != "" && IsDigit(s[0]) && DigitsThenLetters(s[1..]) { DigitsThenLettersShape(s[1..]); }
  }

  lemma PlainShape(s: string)
    requires NeedsNoQuotes(s)
    ensures s != "" && forall i :: 0 <= i < |s| ==> IsLetter(s[i]) || IsDigit(s[i]) || s[i] == '-' || s[i] == '+'
  {
    if IsInteger(s) {
      DigitsThenLettersShape(if s[0] == '-' || s[0] == '+' then s[1..] else s);
    }
  }

  lemma EscapeShape(value: string)
    ensures var e := Escape(value);
            && e != "" && '\n' !in e && !IsSpace(e[0]) && !IsSpace(e[|e| - 1])
            && (NoSpace(e) <==> Clean(value))
  {
    if NeedsNoQuotes(value) {
      PlainShape(value);
    } else {
      QuotedSpaces(value);
      NoSpaceAppend("'" + Quoted(value), "'");
      NoSpaceAppend("'", Quoted(value));
    }
  }

  lemma {:induction false} SpanIs(test: char -> bool, s: string, n: nat)
    requires n <= |s| && (forall i :: 0 <= i < n ==> test(s[i])) && (n < |s| ==> !test(s[n]))
    ensures Span(test, s) == n
    decreases n
  {
    if n > 0 { SpanIs(test, s[1..], n - 1); }
  }

  lemma NoSkip(s: string)
    requires s != "" ==> !IsSpace(s[0])
    ensures SkipSpace(s) == s
  {
    SpanIs(IsSpace, s, 0);
  }

  lemma ConfLineOf(word: char -> bool, name: string, value: string)
    requires Sane(word) && GoodName(word, name)
    ensures ConfLine(word, LineOf(name, value)) == if Clean(value) then Some((name, Escape(value))) else None
  {
    var line, e := LineOf(name, value), Escape(value);
    EscapeShape(value);
    var n := Span(c => InName(word, c), line);
    SpanIs(c => InName(word, c), line, |name|);
    assert line[..|name|] == name && line[|name|..] == "=" + e;
    NoSkip("=" + e);
    assert ("=" + e)[1..] == e;
    NoSkip(e);
  }

  lemma TrimLineOf(word: char -> bool, name: string, value: string)
    requires Sane(word) && GoodName(word, name)
    ensures var line := LineOf(name, value);
            Trim(line) == line && Chomp(line) == line && line[0] != '#' && '\n' !in line
  {
    var line, e := LineOf(name, value), Escape(value);
    EscapeShape(value);
    assert line[0] == name[0] && line[|line| - 1] == e[|e| - 1];
    assert InName(word, name[0]) && !IsSpace('.');
    NoSkip(line);
    forall i | 0 <= i < |name| ensures name[i] != '\n' { assert InName(word, name[i]) && IsSpace('\n'); }
  }

  lemma Assigned(hash: Hash, name: string, raw: string, value: string)
    requires Deescape(raw) == Some(value)
    ensures Assign(hash, Some((name, raw))) == hash[name := value]
  {
  }

  lemma ReadUntrimmed(word: char -> bool, hash: Hash, line: string, found: Option<(string, string)>)
    requires line != "" && Trim(line) == line && line[0] != '#' && ConfLine(word, line) == found
    ensures ReadLine(word, hash, line) == Assign(hash, found)
  {
    assert ReadLine(word, hash, line) == ReadTrimmed(word, hash, line);
  }

  /** A written setting is read back when its value is clean, and is otherwise passed over. */
  lemma ReadLineOf(word: char -> bool, hash: Hash, name: string, value: string)
    requires Sane(word) && GoodName(word, name)
    ensures ReadLine(word, hash, LineOf(name, value)) == SetIfClean(hash, name, value)
  {
    TrimLineOf(word, name, value);
    ConfLineOf(word, name, value);
    DeescapeEscape(value);
    ReadUntrimmed(word, hash, LineOf(name, value), if Clean(value) then Some((name, Escape(value))) else None);
    Assigned(hash, name, Escape(value), value);
  }

  // --- whole files

  type Settings = seq<(string, string)>

  predicate GoodNames(word: char -> bool, settings: Settings) {
    forall i :: 0 <= i < |settings| ==> GoodName(word, settings[i].0)
  }

  function Text(lines: seq<string>): string {
    if lines == [] then "" else lines[0] + Text(lines[1..])
  }

  function Written(settings: Settings): seq<string> {
    seq(|settings|, i requires 0 <= i < |settings| => LineOf(settings[i].0, settings[i].1) + "\n")
  }

  /** The last setting of each name. */
  function AllSet(hash: Hash, settings: Settings): Hash
    decreases |settings|
  {
    if settings == [] then hash else AllSet(hash[settings[0].0 := settings[0].1], settings[1..])
  }

  /** The last clean setting of each name. */
  function CleanSet(hash: Hash, settings: Settings): Hash
    decreases |settings|
  {
    if settings == [] then hash else CleanSet(SetIfClean(hash, settings[0].0, settings[0].1), settings[1..])
  }

  lemma ReadStep(word: char -> bool, hash: Hash, line: string, rest: string)
    requires '\n' !in line && Chomp(line) == line
    ensures ReadLines(word, hash, Lines(line + "\n" + rest)) == ReadLines(word, ReadLine(word, hash, line), Lines(rest))
  {
    LinesStep(line, rest);
    assert ([line] + Lines(rest))[1..] == Lines(rest);
  }

  lemma TextStep(settings: Settings)
    requires settings != []
    ensures Text(Written(settings)) == LineOf(settings[0].0, settings[0].1) + "\n" + Text(Written(settings[1..]))
  {
    assert Written(settings)[1..] == Written(settings[1..]);
  }

  lemma ReadSetting(word: char -> bool, hash: Hash, name: string, value: string, rest: string)
    requires Sane(word) && GoodName(word, name)
    ensures ReadLines(word, hash, Lines(LineOf(name, value) + "\n" + rest)) ==
            ReadLines(word, SetIfClean(hash, name, value), Lines(rest))
  {
    TrimLineOf(word, name, value);
    ReadStep(word, hash, LineOf(name, value), rest);
    ReadLineOf(word, hash, name, value);
  }

  lemma {:induction false} ReadBack(word: char -> bool, hash: Hash, settings: Settings)
    requires Sane(word) && GoodNames(word, settings)
    ensures ReadLines(word, hash, Lines(Text(Written(settings)))) == CleanSet(hash, settings)
    decreases |settings|
  {
    if settings != [] {
      var name, value, rest := settings[0].0, settings[0].1, settings[1..];
      TextStep(settings);
      ReadSetting(word, hash, name, value, Text(Written(rest)));
      ReadBack(word, SetIfClean(hash, name, value), rest);
    }
  }

  lemma {:induction false} CleanSetIsAllSet(hash: Hash, settings: Settings)
    requires forall i :: 0 <= i < |settings| ==> Clean(settings[i].1)
    ensures CleanSet(hash, settings) == AllSet(hash, settings)
    decreases |settings|
  {
    if settings != [] { CleanSetIsAllSet(hash[settings[0].0 := settings[0].1], settings[1..]); }
  }

  /** Reading a file and printing it again keeps it only if it had no line ends. */
  lemma {:induction false} LineEndsAreLost(text: string)
    ensures |Text(Lines(text))| <= |text| && (Text(Lines(text)) == text <==> '\n' !in text)
    decreases |text|
  {
    if text != "" {
      var n := FirstNewline(text);
      if n == |text| {
        assert text[..n] == text;
        assert Text([text]) == text + Text([]) == text;
      } else {
        LineEndsAreLost(text[n + 1..]);
        var rest := Lines(text[n + 1..]);
        assert ([Chomp(text[..n])] + rest)[1..] == rest;
      }
    }
  }

  /** Settings with clean values: the file read back has the same value for every option. */
  lemma RoundTrip(word: char -> bool, settings: Settings)
    requires Sane(word) && GoodNames(word, settings) && forall i :: 0 <= i < |settings| ==> Clean(settings[i].1)
    ensures ReadLines(word, map[], Lines(Text(Written(settings)))) == AllSet(map[], settings)
  {
    ReadBack(word, map[], settings);
    CleanSetIsAllSet(map[], settings);
  }

  lemma {:induction false} SetOneMore(hash: Hash, settings: Settings, name: string, value: string)
    ensures AllSet(hash, settings + [(name, value)]) == AllSet(hash, settings)[name := value]
    decreases |settings|
  {
    if settings == [] {
      assert settings + [(name, value)] == [(name, value)] && [(name, value)][1..] == [];
    } else {
      SetOneMore(hash[settings[0].0 := settings[0].1], settings[1..], name, value);
      assert (settings + [(name, value)])[1..] == settings[1..] + [(name, value)];
    }
  }

  lemma {:induction false} CleanSetOneMore(hash: Hash, settings: Settings, name: string, value: string)
    ensures CleanSet(hash, settings + [(name, value)]) ==
            SetIfClean(CleanSet(hash, settings), name, value)
    decreases |settings|
  {
    if settings == [] {
      assert settings + [(name, value)] == [(name, value)] && [(name, value)][1..] == [];
    } else {
      CleanSetOneMore(SetIfClean(hash, settings[0].0, settings[0].1), settings[1..], name, value);
      assert (settings + [(name, value)])[1..] == settings[1..] + [(name, value)];
    }
  }

  /** What a name is set to last, and what it is last set to that is clean. */
  lemma {:induction false} LastOfName(settings: Settings, name: string)
    ensures var all, clean := AllSet(map[], settings), CleanSet(map[], settings);
            && (name in clean ==> name in all && Clean(clean[name]))
            && (name in all && Clean(all[name]) ==> name in clean && clean[name] == all[name])
            && (name in all <==> exists i :: 0 <= i < |settings| && settings[i].0 == name)
    decreases |settings|
  {
    if settings != [] {
      var init, last := settings[..|settings| - 1], settings[|settings| - 1];
      assert settings == init + [(last.0, last.1)];
      LastOfName(init, name);
      SetOneMore(map[], init, last.0, last.1);
      CleanSetOneMore(map[], init, last.0, last.1);
    }
  }

  lemma NewNameIsGood(word: char -> bool, hash: Hash, line: string, name: string)
    requires name !in hash && name in ReadLine(word, hash, line)
    ensures GoodName(word, name)
  {
    assert ConfLine(word, Trim(line)).Some? && name == ConfLine(word, Trim(line)).value.0;
  }

  lemma {:induction false} NamesReadAreGood(word: char -> bool, hash: Hash, lines: seq<string>, name: string)
    requires name !in hash && name in ReadLines(word, hash, lines)
    ensures GoodName(word, name)
    decreases |lines|
  {
    if name in ReadLine(word, hash, lines[0]) {
      NewNameIsGood(word, hash, lines[0], name);
    } else {
      NamesReadAreGood(word, ReadLine(word, hash, lines[0]), lines[1..], name);
    }
  }

  /** These options can be written and read back. */
  predicate Readable(word: char -> bool, hash: Hash) {
    forall name :: name in hash ==> GoodName(word, name) && Clean(hash[name])
  }

  lemma CleanSetIffClean(settings: Settings)
    ensures CleanSet(map[], settings) == AllSet(map[], settings) <==>
            forall name :: name in AllSet(map[], settings) ==> Clean(AllSet(map[], settings)[name])
  {
    var all, clean := AllSet(map[], settings), CleanSet(map[], settings);
    forall name
      ensures name in clean ==> name in all && Clean(clean[name])
      ensures name in all && Clean(all[name]) ==> name in clean && clean[name] == all[name]
    {
      LastOfName(settings, name);
    }
  }

  /** A printed configuration read back has the same value for every option if and only if every name is
      one the reader knows and the last value of every option is clean. */
  lemma ReadBackIff(word: char -> bool, settings: Settings)
    requires Sane(word)
    ensures ReadLines(word, map[], Lines(Text(Written(settings)))) == AllSet(map[], settings) <==>
            Readable(word, AllSet(map[], settings))
  {
    var all, lines := AllSet(map[], settings), Lines(Text(Written(settings)));
    if ReadLines(word, map[], lines) == all {
      forall name | name in all ensures GoodName(word, name) { NamesReadAreGood(word, map[], lines, name); }
    }
    if forall name :: name in all ==> GoodName(word, name) {
      forall i | 0 <= i < |settings| ensures GoodName(word, settings[i].0) { LastOfName(settings, settings[i].0); }
      ReadBack(word, map[], settings);
      CleanSetIffClean(settings);
    }
  }

  lemma OneSet(name: string, value: string)
    ensures AllSet(map[], [(name, value)]) == map[name := value]
  {
    SetOneMore(map[], [], name, value);
    assert [] + [(name, value)] == [(name, value)];
  }

  lemma OneReadable(word: char -> bool, name: string, value: string)
    ensures Readable(word, map[name := value]) <==> GoodName(word, name) && Clean(value)
  {
    if Readable(word, map[name := value]) {
      assert name in map[name := value] && map[name := value][name] == value;
    }
  }

  /** One setting is read back exactly when the reader knows its name and its value is clean. */
  lemma ReadBackIffClean(word: char -> bool, name: string, value: string)
    requires Sane(word)
    ensures ReadLines(word, map[], Lines(Text(Written([(name, value)])))) == map[name := value] <==>
            GoodName(word, name) && Clean(value)
  {
    OneSet(name, value);
    OneReadable(word, name, value);
    ReadBackIff(word, [(name, value)]);
  }

  class PostgresConf {
    var lines: seq<string>
    var hash: Hash
    ghost var appended: Settings

    /** The file and the options in memory are those of the settings appended so far. */
    ghost predicate Valid()
      reads this
    {
      lines == Written(appended) && hash == AllSet(map[], appended)
    }

    constructor ()
      ensures Valid() && appended == []
    {
      lines, hash, appended := [], map[], [];
    }

    method Append(option: string, value: string)
      requires Valid()
      modifies this
      ensures Valid() && appended == old(appended) + [(option, value)] && hash == old(hash)[option := value]
    {
      SetOneMore(map[], appended, option, value);
      appended := appended + [(option, value)];
      lines := lines + [option + "=" + Escape(value) + "\n"];
      hash := hash[option := value];
    }

    method Display() returns (text: string)
      ensures text == Text(lines)
    {
      text := "";
      for i := 0 to |lines|
        invariant Text(lines) == text + Text(lines[i..])
      {
        assert lines[i..][1..] == lines[i + 1..];
        text := text + lines[i];
      }
    }
  }

  method Read(word: char -> bool, text: string) returns (lines: seq<string>, hash: Hash)
    ensures lines == Lines(text) && hash == ReadLines(word, map[], lines)
  {
    lines, hash := Lines(text), map[];
    for i := 0 to |lines|
      invariant ReadLines(word, map[], lines) == ReadLines(word, hash, lines[i..])
    {
      assert lines[i..][1..] == lines[i + 1..];
      hash := ReadLine(word, hash, lines[i]);
    }
  }
}
