/** `shlex.quote` and the shell's reading of the word it produces. */
module Shell {
  import opened Wrappers

  /** The characters `shlex.quote` leaves bare: ASCII letters, digits and
      `_@%+=:,./-`. */
  predicate SafeChar(c: char) {
    ('a' <= c <= 'z') || ('A' <= c <= 'Z') || ('0' <= c <= '9') ||
    c == '_' || c == '@' || c == '%' || c == '+' || c == '=' ||
    c == ':' || c == ',' || c == '.' || c == '/' || c == '-'
  }

  predicate AllSafe(s: string) {
    forall i :: 0 <= i < |s| ==> SafeChar(s[i])
  }

  /** `s.replace("'", "'\"'\"'")`: each single quote closes the quoted run,
      is written inside double quotes, and reopens the run. */
  function Escape(s: string): string {
    if s == [] then [] else (if s[0] == '\'' then "'\"'\"'" else [s[0]]) + Escape(s[1..])
  }

  /** `shlex.quote(s)`. */
  function Quote(s: string): (r: string)
    ensures r != []
    ensures AllSafe(s) && s != [] ==> r == s
  {
    if s == [] then "''"
    else if AllSafe(s) then s
    else "'" + Escape(s) + "'"
  }

  datatype Mode = Bare | Single | Double

  function Prepend(c: char, o: Option<string>): Option<string> {
    match o
    case Some(w) => Some([c] + w)
    case None => None
  }

  function PrependAll(s: string, o: Option<string>): Option<string> {
    match o
    case Some(w) => Some(s + w)
    case None => None
  }

  /** How a POSIX shell reads one word made of bare safe characters,
      single-quoted runs, and double-quoted runs free of `\`, `$` and a
      backquote; `None` for anything else, or for an unclosed quote. */
  function Read(t: string, mode: Mode): Option<string>
    decreases |t|
  {
    if t == [] then (if mode == Bare then Some("") else None)
    else
      var c, rest := t[0], t[1..];
      match mode
      case Bare =>
        if c == '\'' then Read(rest, Single)
        else if c == '"' then Read(rest, Double)
        else if SafeChar(c) then Prepend(c, Read(rest, Bare))
        else None
      case Single =>
        if c == '\'' then Read(rest, Bare) else Prepend(c, Read(rest, Single))
      case Double =>
        if c == '"' then Read(rest, Bare)
        else if c == '\\' || c == '$' || c == '`' then None
        else Prepend(c, Read(rest, Double))
  }

  /** The value a shell gives the quoted word. */
  function Unquote(t: string): Option<string> {
    Read(t, Bare)
  }

  lemma {:induction false} ReadSafe(s: string)
    requires AllSafe(s)
    ensures Read(s, Bare) == Some(s)
  {
    if s != [] {
      ReadSafe(s[1..]);
      assert s == [s[0]] + s[1..];
    }
  }

  /** Inside a single-quoted run, the escape of one quote reads back as
      that quote. */
  lemma ReadQuoteEscape(rest: string)
    ensures Read("'\"'\"'" + rest, Single) == Prepend('\'', Read(rest, Single))
  {
    var t := "'\"'\"'" + rest;
    assert t[1..] == "\"'\"'" + rest;
    assert t[2..] == "'\"'" + rest;
    assert t[3..] == "\"'" + rest;
    assert t[4..] == "'" + rest;
    assert t[5..] == rest;
    assert t[0] == '\'' && t[1] == '"' && t[2] == '\'' && t[3] == '"' && t[4] == '\'';
    assert Read(t, Single) == Read(t[1..], Bare);
    assert Read(t[1..], Bare) == Read(t[2..], Double);
    assert Read(t[2..], Double) == Prepend('\'', Read(t[3..], Double));
    assert Read(t[3..], Double) == Read(t[4..], Bare);
    assert Read(t[4..], Bare) == Read(rest, Single);
  }

  /** Inside a single-quoted run, any other character reads as itself. */
  lemma ReadPlain(c: char, rest: string)
    requires c != '\''
    ensures Read([c] + rest, Single) == Prepend(c, Read(rest, Single))
  {
    assert ([c] + rest)[1..] == rest;
  }

  lemma PrependAllCons(s: string, o: Option<string>)
    requires s != []
    ensures Prepend(s[0], PrependAll(s[1..], o)) == PrependAll(s, o)
  {
    match o
    case Some(w) => assert [s[0]] + (s[1..] + w) == s + w;
    case None =>
  }

  /** Inside a single-quoted run, an escaped string reads back as itself. */
  lemma {:induction false} ReadEscape(s: string, tail: string)
    ensures Read(Escape(s) + tail, Single) == PrependAll(s, Read(tail, Single))
  {
    if s == [] {
      assert Escape(s) + tail == tail;
      match Read(tail, Single)
      case Some(w) => assert s + w == w;
      case None =>
    } else {
      var rest := Escape(s[1..]) + tail;
      ReadEscape(s[1..], tail);
      if s[0] == '\'' {
        assert Escape(s) + tail == "'\"'\"'" + rest;
        ReadQuoteEscape(rest);
      } else {
        assert Escape(s) + tail == [s[0]] + rest;
        ReadPlain(s[0], rest);
      }
      PrependAllCons(s, Read(tail, Single));
    }
  }

  /** A shell reads the output of `shlex.quote` back as the original string. */
  lemma QuoteRoundTrip(s: string)
    ensures Unquote(Quote(s)) == Some(s)
  {
    if s == [] {
      ReadClosing();
      assert Quote(s)[1..] == "'";
    } else if AllSafe(s) {
      ReadSafe(s);
    } else {
      ReadEscape(s, "'");
      ReadClosing();
      assert s + "" == s;
      ReadQuoted(Escape(s), s);
    }
  }

  /** A lone closing quote ends a single-quoted run and the word. */
  lemma ReadClosing()
    ensures Read("'", Single) == Some("")
  {
    assert "'"[1..] == "";
  }

  /** An opening quote switches a bare word into a single-quoted run. */
  lemma ReadQuoted(e: string, s: string)
    requires Read(e + "'", Single) == Some(s)
    ensures Read("'" + e + "'", Bare) == Some(s)
  {
    var t := "'" + e + "'";
    assert t[0] == '\'';
    assert t[1..] == e + "'";
  }
}
