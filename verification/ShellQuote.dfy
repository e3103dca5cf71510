/** Quoting a string for the shell, in the two forms the program uses (`shellQuote` in
    internal/dockermanager/manager.go and `ShellQuote` in internal/networkdiag/commands.go), read
    back by the quoting rules of the POSIX shell: sections 2.2.1 to 2.2.3 of the Shell Command
    Language, POSIX.1-2017. */
module ShellQuote {

  // Quoting.

  /** How a single quote is written inside single quotes. */
  datatype Form = InDoubleQuotes | Backslashed

  function QuoteText(form: Form): string {
    match form
    case InDoubleQuotes => "'\"'\"'"
    case Backslashed => "'\\''"
  }

  function EscapeChar(form: Form, c: char): string {
    if c == '\'' then QuoteText(form) else [c]
  }

  /** `strings.ReplaceAll(s, "'", ...)`. */
  function Escape(form: Form, s: string): string {
    if s == "" then "" else EscapeChar(form, s[0]) + Escape(form, s[1..])
  }

  function Quote(form: Form, s: string): string {
    "'" + Escape(form, s) + "'"
  }

  // Reading a word.

  /** The word read and what follows it; or a quotation that does not end, or an expansion. */
  datatype Token = Word(text: string, rest: string) | Unterminated | Expansion

  predicate IsBlank(c: char) {
    c == ' ' || c == '\t'
  }

  /** An unquoted character of these ends a word. */
  predicate EndsWord(c: char) {
    IsBlank(c) || c == '\n' || c == '|' || c == '&' || c == ';' || c == '<' || c == '>' || c == '(' || c == ')'
  }

  /** An unquoted character of these is not, or not always, read as itself. */
  predicate Expands(c: char) {
    c == '$' || c == '`' || c == '*' || c == '?' || c == '[' || c == '#' || c == '~' || c == '=' || c == '%'
  }

  function Unquoted(input: string, word: string): (token: Token)
    ensures token.Word? ==> |token.rest| <= |input| && (|token.rest| < |input| || input == "" || EndsWord(input[0]))
    decreases |input|
  {
    if input == "" || EndsWord(input[0]) then Word(word, input)
    else if input[0] == '\\' then
      if |input| == 1 then Unterminated
      else Unquoted(input[2..], if input[1] == '\n' then word else word + [input[1]])
    else if input[0] == '\'' then SingleQuoted(input[1..], word)
    else if input[0] == '"' then DoubleQuoted(input[1..], word)
    else if Expands(input[0]) then Expansion
    else Unquoted(input[1..], word + [input[0]])
  }

  function SingleQuoted(input: string, word: string): (token: Token)
    ensures token.Word? ==> |token.rest| < |input|
    decreases |input|
  {
    if input == "" then Unterminated
    else if input[0] == '\'' then Unquoted(input[1..], word)
    else SingleQuoted(input[1..], word + [input[0]])
  }

  function DoubleQuoted(input: string, word: string): (token: Token)
    ensures token.Word? ==> |token.rest| < |input|
    decreases |input|
  {
    if input == "" then Unterminated
    else if input[0] == '"' then Unquoted(input[1..], word)
    else if input[0] == '$' || input[0] == '`' then Expansion
    else if input[0] == '\\' && |input| > 1 && input[1] == '\n' then DoubleQuoted(input[2..], word)
    else if input[0] == '\\' && |input| > 1 && (input[1] == '$' || input[1] == '`' || input[1] == '"' || input[1] == '\\') then
      DoubleQuoted(input[2..], word + [input[1]])
    else DoubleQuoted(input[1..], word + [input[0]])
  }

  // One character at a time.

  lemma SingleEnds(rest: string, word: string)
    ensures SingleQuoted(['\''] + rest, word) == Unquoted(rest, word)
  {
    assert (['\''] + rest)[1..] == rest;
  }

  lemma DoubleEnds(rest: string, word: string)
    ensures DoubleQuoted(['"'] + rest, word) == Unquoted(rest, word)
  {
    assert (['"'] + rest)[1..] == rest;
  }

  lemma QuotationStarts(rest: string, word: string)
    ensures Unquoted(['\''] + rest, word) == SingleQuoted(rest, word)
    ensures Unquoted(['"'] + rest, word) == DoubleQuoted(rest, word)
  {
    assert (['\''] + rest)[1..] == rest && (['"'] + rest)[1..] == rest;
  }

  lemma QuoteInDouble(rest: string, word: string)
    ensures DoubleQuoted(['\''] + rest, word) == DoubleQuoted(rest, word + "'")
  {
    assert (['\''] + rest)[1..] == rest;
  }

  lemma QuoteEscaped(rest: string, word: string)
    ensures Unquoted(['\\'] + (['\''] + rest), word) == Unquoted(rest, word + "'")
  {
    var input := ['\\'] + (['\''] + rest);
    assert input[1] == '\'' && input[2..] == rest;
  }

  lemma DoubleFormIsRead(word: string, rest: string)
    ensures SingleQuoted(['\''] + (['"'] + (['\''] + (['"'] + (['\''] + rest)))), word) == SingleQuoted(rest, word + "'")
  {
    var s4 := ['\''] + rest;
    var s3 := ['"'] + s4;
    var s2 := ['\''] + s3;
    SingleEnds(['"'] + s2, word);
    QuotationStarts(s2, word);
    QuoteInDouble(s3, word);
    DoubleEnds(s4, word + "'");
    QuotationStarts(rest, word + "'");
  }

  lemma BackslashFormIsRead(word: string, rest: string)
    ensures SingleQuoted(['\''] + (['\\'] + (['\''] + (['\''] + rest))), word) == SingleQuoted(rest, word + "'")
  {
    var s2 := ['\''] + rest;
    SingleEnds(['\\'] + (['\''] + s2), word);
    QuoteEscaped(s2, word);
    QuotationStarts(rest, word + "'");
  }

  /** Inside single quotes either form is read as a single quote. */
  lemma QuoteIsRead(form: Form, word: string, rest: string)
    ensures SingleQuoted(QuoteText(form) + rest, word) == SingleQuoted(rest, word + "'")
  {
    match form
    case InDoubleQuotes =>
      assert QuoteText(form) + rest == ['\''] + (['"'] + (['\''] + (['"'] + (['\''] + rest))));
      DoubleFormIsRead(word, rest);
    case Backslashed =>
      assert QuoteText(form) + rest == ['\''] + (['\\'] + (['\''] + (['\''] + rest)));
      BackslashFormIsRead(word, rest);
  }

  lemma EscapedCharIsRead(form: Form, c: char, word: string, rest: string)
    ensures SingleQuoted(EscapeChar(form, c) + rest, word) == SingleQuoted(rest, word + [c])
  {
    if c == '\'' {
      QuoteIsRead(form, word, rest);
      assert word + "'" == word + [c];
    } else {
      assert ([c] + rest)[1..] == rest;
    }
  }

  /** Inside single quotes, the escaped string is read as the string. */
  lemma {:induction false} EscapedIsRead(form: Form, s: string, word: string, rest: string)
    ensures SingleQuoted(Escape(form, s) + rest, word) == SingleQuoted(rest, word + s)
    decreases |s|
  {
    if s == "" {
      assert Escape(form, s) + rest == rest && word + s == word;
    } else {
      var more := Escape(form, s[1..]) + rest;
      assert Escape(form, s) + rest == EscapeChar(form, s[0]) + more;
      EscapedCharIsRead(form, s[0], word, more);
      EscapedIsRead(form, s[1..], word + [s[0]], rest);
      assert (word + [s[0]]) + s[1..] == word + s;
    }
  }

  /** Wherever the quoted string stands in a word, it adds exactly the string to the word and nothing
      that follows is affected. */
  lemma QuotedIsRead(form: Form, s: string, word: string, rest: string)
    ensures Unquoted(Quote(form, s) + rest, word) == Unquoted(rest, word + s)
  {
    var input, tail := Quote(form, s) + rest, "'" + rest;
    EscapedIsRead(form, s, word, tail);
    assert input[1..] == Escape(form, s) + tail && tail[1..] == rest;
  }

  /** Before a blank, an operator or the end, the shell reads either form of a string as that one
      word and leaves the rest untouched. */
  lemma QuotedIsOneWord(form: Form, s: string, rest: string)
    requires rest == "" || EndsWord(rest[0])
    ensures Unquoted(Quote(form, s) + rest, "") == Word(s, rest)
  {
    QuotedIsRead(form, s, "", rest);
    assert "" + s == s;
  }

  /** The two forms are equivalent in every context. */
  lemma FormsAreEquivalent(s: string, word: string, rest: string)
    ensures Unquoted(Quote(InDoubleQuotes, s) + rest, word) == Unquoted(Quote(Backslashed, s) + rest, word)
  {
    QuotedIsRead(InDoubleQuotes, s, word, rest);
    QuotedIsRead(Backslashed, s, word, rest);
  }

  /** Different strings are quoted differently, even in different forms. */
  lemma QuotingIsInjective(f: Form, s: string, g: Form, t: string)
    requires Quote(f, s) == Quote(g, t)
    ensures s == t
  {
    QuotedIsOneWord(f, s, "");
    QuotedIsOneWord(g, t, "");
    assert Quote(f, s) + "" == Quote(g, t) + "";
  }

  /** The two forms as they are written. */
  lemma FormsAreWritten()
    ensures Quote(InDoubleQuotes, "it's") == "'it'\"'\"'s'"
    ensures Quote(Backslashed, "it's") == "'it'\\''s'"
    ensures Quote(InDoubleQuotes, "") == "''" && Quote(Backslashed, "") == "''"
  {
    EscapeWritten(InDoubleQuotes);
    EscapeWritten(Backslashed);
  }

  lemma EscapeWritten(form: Form)
    ensures Escape(form, "it's") == "it" + QuoteText(form) + "s"
  {
    var s := "it's";
    assert s[1..] == "t's" && s[1..][1..] == "'s" && s[1..][1..][1..] == "s" && s[1..][1..][1..][1..] == "";
    assert Escape(form, "s") == "s";
    assert Escape(form, "'s") == QuoteText(form) + "s";
    assert Escape(form, "t's") == "t" + (QuoteText(form) + "s");
  }

  // Command lines.

  datatype Argument = Argument(form: Form, text: string)

  /** Quoted arguments, each followed by a blank. */
  function CommandLine(arguments: seq<Argument>): string {
    if arguments == [] then "" else Quote(arguments[0].form, arguments[0].text) + " " + CommandLine(arguments[1..])
  }

  function Texts(arguments: seq<Argument>): seq<string> {
    if arguments == [] then [] else [arguments[0].text] + Texts(arguments[1..])
  }

  datatype Words = Words(words: seq<string>) | NotPlain

  /** The words of a line, if it has only words: no operator, expansion or open quotation. */
  function ReadWords(input: string): Words
    decreases |input|
  {
    if input == "" then Words([])
    else if IsBlank(input[0]) then ReadWords(input[1..])
    else if EndsWord(input[0]) then NotPlain
    else
      match Unquoted(input, "")
      case Unterminated => NotPlain
      case Expansion => NotPlain
      case Word(text, rest) => (
        match ReadWords(rest)
        case NotPlain => NotPlain
        case Words(words) => Words([text] + words))
  }

  /** The shell reads quoted arguments, in any mix of the two forms, as exactly those arguments. */
  lemma {:induction false} ArgumentsAreRead(arguments: seq<Argument>)
    ensures ReadWords(CommandLine(arguments)) == Words(Texts(arguments))
  {
    if arguments != [] {
      var a, line := arguments[0], CommandLine(arguments);
      var rest := " " + CommandLine(arguments[1..]);
      assert line == Quote(a.form, a.text) + rest;
      assert line[0] == '\'' && rest[1..] == CommandLine(arguments[1..]);
      QuotedIsOneWord(a.form, a.text, rest);
      ArgumentsAreRead(arguments[1..]);
    }
  }
}
