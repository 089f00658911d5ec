/** The two notions of surrounding blanks the bot relies on: Python's
    `str.strip()` with no argument, which removes every character for
    which `str.isspace()` holds, and PostgreSQL's `TRIM(s)`, which removes
    only the space character U+0020. */
module Text {

  datatype Charset = PythonWhitespace | PostgresSpace

  /** Python's `str.isspace()` for one character (Unicode White_Space
      characters plus the four ASCII separators U+001C..U+001F). */
  predicate IsPythonSpace(c: char)
  {
    || ('\t' <= c <= '\r')
    || ('\U{1C}' <= c <= '\U{1F}')
    || c == ' '
    || c == '\U{85}'
    || c == '\U{A0}'
    || c == '\U{1680}'
    || ('\U{2000}' <= c <= '\U{200A}')
    || c == '\U{2028}'
    || c == '\U{2029}'
    || c == '\U{202F}'
    || c == '\U{205F}'
    || c == '\U{3000}'
  }

  /** Whether trimming with `cs` removes `c`. */
  predicate Drops(cs: Charset, c: char)
  {
    match cs
    case PythonWhitespace => IsPythonSpace(c)
    case PostgresSpace => c == ' '
  }

  function TrimLeft(cs: Charset, s: string): string
  {
    if s != [] && Drops(cs, s[0]) then TrimLeft(cs, s[1..]) else s
  }

  function TrimRight(cs: Charset, s: string): string
  {
    if s != [] && Drops(cs, s[|s| - 1]) then TrimRight(cs, s[..|s| - 1]) else s
  }

  /** `s` without its leading and trailing characters of `cs`. */
  function Trim(cs: Charset, s: string): string
  {
    TrimRight(cs, TrimLeft(cs, s))
  }

  lemma {:induction false} TrimLeftFacts(cs: Charset, s: string)
    ensures var r := TrimLeft(cs, s);
      && |r| <= |s| && r == s[|s| - |r|..]
      && (forall i :: 0 <= i < |s| - |r| ==> Drops(cs, s[i]))
      && (r != [] ==> !Drops(cs, r[0]))
  {
    if s != [] && Drops(cs, s[0]) {
      var t := s[1..];
      TrimLeftFacts(cs, t);
      var r := TrimLeft(cs, t);
      assert TrimLeft(cs, s) == r;
      assert t[|t| - |r|..] == s[|s| - |r|..];
      forall i | 0 <= i < |s| - |r| ensures Drops(cs, s[i]) {
        if i > 0 {
          assert s[i] == t[i - 1];
        }
      }
    }
  }

  lemma {:induction false} TrimRightFacts(cs: Charset, s: string)
    ensures var r := TrimRight(cs, s);
      && |r| <= |s| && r == s[..|r|]
      && (forall i :: |r| <= i < |s| ==> Drops(cs, s[i]))
      && (r != [] ==> !Drops(cs, r[|r| - 1]))
  {
    if s != [] && Drops(cs, s[|s| - 1]) {
      var t := s[..|s| - 1];
      TrimRightFacts(cs, t);
      var r := TrimRight(cs, t);
      assert TrimRight(cs, s) == r;
      assert t[..|r|] == s[..|r|];
      forall i | |r| <= i < |s| ensures Drops(cs, s[i]) {
        if i < |s| - 1 {
          assert s[i] == t[i];
        }
      }
    }
  }

  /** Trimming leaves nothing exactly when every character is trimmable; a
      non-empty result starts and ends with a kept character; text that
      already starts and ends with kept characters is unchanged. */
  lemma TrimFacts(cs: Charset, s: string)
    ensures var r := Trim(cs, s);
      && |r| <= |s|
      && (r == [] <==> forall i :: 0 <= i < |s| ==> Drops(cs, s[i]))
      && (r != [] ==> !Drops(cs, r[0]) && !Drops(cs, r[|r| - 1]))
      && (s == [] || (!Drops(cs, s[0]) && !Drops(cs, s[|s| - 1])) ==> r == s)
  {
    var l := TrimLeft(cs, s);
    TrimLeftFacts(cs, s);
    TrimRightFacts(cs, l);
    var r := TrimRight(cs, l);
  }

  /** Python's `s.strip()`. */
  function Strip(s: string): string { Trim(PythonWhitespace, s) }

  /** PostgreSQL's `TRIM(s)`. */
  function SqlTrim(s: string): string { Trim(PostgresSpace, s) }

  /** Text that PostgreSQL finds blank, Python finds blank too (but not
      conversely: a lone newline survives `TRIM` and not `strip()`). */
  lemma SqlBlankIsStripBlank(s: string)
    ensures SqlTrim(s) == [] ==> Strip(s) == []
    ensures Strip(s) != [] ==> SqlTrim(s) != []
  {
    TrimFacts(PostgresSpace, s);
    TrimFacts(PythonWhitespace, s);
    if SqlTrim(s) == [] {
      assert forall i :: 0 <= i < |s| ==> Drops(PythonWhitespace, s[i]) by {
        forall i | 0 <= i < |s| ensures Drops(PythonWhitespace, s[i]) {
          assert Drops(PostgresSpace, s[i]);
        }
      }
    }
  }

  /** The two trims differ: a newline is blank to Python, not to PostgreSQL. */
  lemma NewlineIsBlankOnlyToPython()
    ensures SqlTrim("\n") == "\n" && Strip("\n") == ""
  {
  }
}
