/**
 Reading encoded words by RFC 2047, as a reader that knows UTF-8 and US-ASCII does; section 6.2 lets it show
 words in any other character set as they stand. A string is a sequence of bytes, one character each.
 */
module EncodedWord {
  import opened Options
  import opened Text
  import opened Base64

  /** Linear white space within one line. */
  predicate IsBlank(c: char) {
    c == ' ' || c == '\t'
  }

  predicate IsPrintable(c: char) {
    ' ' <= c <= '~'
  }

  predicate Printable(s: string) {
    forall i :: 0 <= i < |s| ==> IsPrintable(s[i])
  }

  /******* One word *******/

  function HexValue(c: char): Option<int> {
    if '0' <= c <= '9' then Some(c as int - '0' as int)
    else if 'A' <= c <= 'F' then Some(c as int - 'A' as int + 10)
    else if 'a' <= c <= 'f' then Some(c as int - 'a' as int + 10)
    else None
  }

  /** The "Q" encoding, section 4.2. */
  function DecodeQ(s: string): Option<string> {
    if s == "" then Some("")
    else if s[0] == '=' then
      if |s| < 3 || HexValue(s[1]).None? || HexValue(s[2]).None? then None
      else Prefixed((HexValue(s[1]).value * 16 + HexValue(s[2]).value) as char, DecodeQ(s[3..]))
    else Prefixed(if s[0] == '_' then ' ' else s[0], DecodeQ(s[1..]))
  }

  function Prefixed(c: char, rest: Option<string>): Option<string> {
    match rest
    case None => None
    case Some(s) => Some([c] + s)
  }

  /** What stands between the opening =? and the closing ?= of a token that has both. */
  function Inside(token: string): Option<string> {
    if |token| >= 4 && StartsWith(token, "=?") && EndsWith(token, "?=") then Some(token[2..|token| - 2]) else None
  }

  /** What follows the first c, if there is one. */
  function After(s: string, c: char): Option<string> {
    if |Before(s, c)| < |s| then Some(s[|Before(s, c)| + 1..]) else None
  }

  predicate KnownCharset(name: string) {
    Lower(name) == "utf-8" || Lower(name) == "us-ascii"
  }

  /** The text of an encoded word, by its encoding; names are compared without case. */
  function DecodeBy(encoding: string, text: string): Option<string> {
    if Lower(encoding) == "b" then
      match Decode(text)
      case Some(bytes) => Some(bytes)
      case None => None
    else if Lower(encoding) == "q" then DecodeQ(text)
    else None
  }

  /** charset?encoding?text, the text neither empty nor with another question mark, section 2. */
  function WordValue(token: string): Option<string> {
    match Inside(token)
    case None => None
    case Some(inside) =>
      match After(inside, '?')
      case None => None
      case Some(rest) =>
        match After(rest, '?')
        case None => None
        case Some(text) =>
          if KnownCharset(Before(inside, '?')) && text != "" && '?' !in text && Printable(text)
          then DecodeBy(Before(rest, '?'), text)
          else None
  }

  lemma {:induction false} DecodeQShrinks(s: string)
    requires DecodeQ(s).Some?
    ensures |DecodeQ(s).value| <= |s|
    decreases |s|
  {
    if s != "" {
      DecodeQShrinks(if s[0] == '=' then s[3..] else s[1..]);
    }
  }

  /** A word is always longer than what it stands for. */
  lemma WordShrinks(token: string)
    requires WordValue(token).Some?
    ensures |WordValue(token).value| < |token|
  {
    var inside := Inside(token).value;
    var rest := After(inside, '?').value;
    var text := After(rest, '?').value;
    assert |text| < |token|;
    if Lower(Before(rest, '?')) == "b" {
      var bytes := Decode(text).value;
      DecodesOnlyEncodings(text, bytes);
      EncodedShape(bytes);
    } else {
      DecodeQShrinks(text);
    }
  }

  lemma AfterOf(name: string, c: char, rest: string)
    requires c !in name
    ensures Before(name + ([c] + rest), c) == name && After(name + ([c] + rest), c) == Some(rest)
  {
    BeforeOf(name, c, rest);
    assert (name + ([c] + rest))[|name| + 1..] == rest;
  }

  /** A well-formed word has the value of its text. */
  lemma WordOf(charset: string, encoding: string, text: string)
    requires KnownCharset(charset) && '?' !in charset && '?' !in encoding
    requires text != "" && '?' !in text && Printable(text)
    ensures WordValue("=?" + (charset + (['?'] + (encoding + (['?'] + text)))) + "?=") == DecodeBy(encoding, text)
  {
    var inside := charset + (['?'] + (encoding + (['?'] + text)));
    var token := "=?" + inside + "?=";
    assert token[..2] == "=?" && token[|token| - 2..] == "?=" && token[2..|token| - 2] == inside;
    AfterOf(charset, '?', encoding + (['?'] + text));
    AfterOf(encoding, '?', text);
  }

  /******* Text *******/

  /** Everything up to the first blank. */
  function Token(s: string): (t: string)
    ensures |t| <= |s|
    ensures t == s[..|t|]
    ensures s != "" && !IsBlank(s[0]) ==> t != ""
  {
    if s == "" || IsBlank(s[0]) then "" else [s[0]] + Token(s[1..])
  }

  /**
   Section 6.1: each blank-separated token that is an encoded word is replaced by what it stands for, and the
   blanks between two of them are dropped. The gap is the blanks passed since the last token.
   */
  function Read(s: string, gap: string, afterWord: bool): string
    decreases |s|
  {
    if s == "" then gap
    else if IsBlank(s[0]) then Read(s[1..], gap + [s[0]], afterWord)
    else
      var token := Token(s);
      match WordValue(token)
      case Some(value) => (if afterWord then "" else gap) + value + Read(s[|token|..], "", true)
      case None => gap + token + Read(s[|token|..], "", false)
  }

  function ReadText(s: string): string {
    Read(s, "", false)
  }

  /** Whether some blank-separated token of the text is an encoded word. */
  predicate HasWord(s: string)
    decreases |s|
  {
    s != "" &&
    if IsBlank(s[0]) then HasWord(s[1..])
    else WordValue(Token(s)).Some? || HasWord(s[|Token(s)|..])
  }

  lemma SplitAt(s: string, n: nat)
    requires n <= |s|
    ensures s[..n] + s[n..] == s
  {
  }

  lemma TokenStep(s: string)
    requires s != "" && !IsBlank(s[0])
    ensures Token(s) != "" && Token(s) + s[|Token(s)|..] == s
  {
    SplitAt(s, |Token(s)|);
  }

  lemma {:induction false} ReadsSame(s: string, gap: string, afterWord: bool)
    requires !HasWord(s)
    ensures Read(s, gap, afterWord) == gap + s
    decreases |s|
  {
    if s != "" {
      if IsBlank(s[0]) {
        ReadsSame(s[1..], gap + [s[0]], afterWord);
        assert gap + [s[0]] + s[1..] == gap + s;
      } else {
        TokenStep(s);
        var token, rest := Token(s), s[|Token(s)|..];
        ReadsSame(rest, "", false);
        assert gap + token + ("" + rest) == gap + (token + rest);
      }
    }
  }

  lemma {:induction false} ReadsShorter(s: string, gap: string, afterWord: bool)
    ensures |Read(s, gap, afterWord)| <= |gap| + |s| - if HasWord(s) then 1 else 0
    decreases |s|
  {
    if s != "" {
      if IsBlank(s[0]) {
        ReadsShorter(s[1..], gap + [s[0]], afterWord);
      } else {
        TokenStep(s);
        var token, rest := Token(s), s[|Token(s)|..];
        var value := WordValue(token);
        if value.Some? {
          WordShrinks(token);
        }
        ReadsShorter(rest, "", value.Some?);
      }
    }
  }

  /** Text reads as itself just when no token of it is an encoded word. */
  lemma ReadsAsItself(s: string)
    ensures ReadText(s) == s <==> !HasWord(s)
  {
    if HasWord(s) {
      ReadsShorter(s, "", false);
    } else {
      ReadsSame(s, "", false);
    }
  }

  lemma {:induction false} TokenIsAll(s: string)
    requires forall i :: 0 <= i < |s| ==> !IsBlank(s[i])
    ensures Token(s) == s
    decreases s
  {
    if s != "" {
      TokenIsAll(s[1..]);
    }
  }

  /** One word without blanks is one token. */
  lemma ReadsWord(s: string)
    requires s != "" && (forall i :: 0 <= i < |s| ==> !IsBlank(s[i])) && WordValue(s).Some?
    ensures ReadText(s) == WordValue(s).value
  {
    TokenIsAll(s);
    assert s[|s|..] == "";
    assert Read("", "", true) == "";
    var value := WordValue(s).value;
    assert "" + value + "" == value;
  }
}
