/**
 How a raw JSON text fares on its way through the registry. The encoder of Go's standard library neither parses
 nor reorders it: it drops the white space between tokens and escapes what HTML would take for markup. Key order,
 number forms and escapes stay as they were spelled.
*/
module Spelling {
  import opened Json

  /** Where the encoder is in a text: between tokens, inside a string literal, or there right after a backslash. */
  datatype Place = Outside | Inside | Escaped

  function Next(p: Place, c: char): Place {
    match p
    case Outside => if c == '"' then Inside else Outside
    case Inside => if c == '"' then Outside else if c == '\\' then Escaped else Inside
    case Escaped => Inside
  }

  predicate Skipped(p: Place, c: char) {
    p.Outside? && c in {' ', '\t', '\r', '\n'}
  }

  const ESCAPE: string := "\\u"

  const MARKUP: set<char> := {'<', '>', '&', '\U{2028}', '\U{2029}'}

  function Spelled(c: char): string {
    match c
    case '<' => ESCAPE + "003c"
    case '>' => ESCAPE + "003e"
    case '&' => ESCAPE + "0026"
    case '\U{2028}' => ESCAPE + "2028"
    case '\U{2029}' => ESCAPE + "2029"
    case _ => [c]
  }

  function CompactFrom(p: Place, s: string): string
    decreases |s|
  {
    if s == "" then ""
    else (if Skipped(p, s[0]) then "" else Spelled(s[0])) + CompactFrom(Next(p, s[0]), s[1..])
  }

  /** What the encoder makes of a JSON text. */
  function Compact(s: string): string {
    CompactFrom(Outside, s)
  }

  /** One character that is already as the encoder writes it stays. */
  lemma {:induction false} Keeps(p: Place, c: char, t: string)
    requires !Skipped(p, c) && Spelled(c) == [c]
    ensures CompactFrom(p, [c] + t) == [c] + CompactFrom(Next(p, c), t)
  {
    assert ([c] + t)[1..] == t;
  }

  predicate Plain(c: char) {
    Spelled(c) == [c] && c !in {'"', '\\', ' ', '\t', '\r', '\n'}
  }

  predicate AllPlain(w: string) {
    w == "" || (Plain(w[0]) && AllPlain(w[1..]))
  }

  lemma {:induction false} PlainStays(p: Place, c: char)
    requires Plain(c) && !p.Escaped?
    ensures !Skipped(p, c) && Next(p, c) == p
  {
  }

  lemma {:induction false} KeepsPlain(p: Place, w: string, t: string)
    requires !p.Escaped? && AllPlain(w)
    ensures CompactFrom(p, w + t) == w + CompactFrom(p, t)
    decreases |w|
  {
    if w == "" {
      assert w + t == t;
    } else {
      var c, rest := w[0], w[1..];
      assert w == [c] + rest;
      Associates([c], rest, t);
      PlainStays(p, c);
      Keeps(p, c, rest + t);
      KeepsPlain(p, rest, t);
      Associates([c], rest, CompactFrom(p, t));
    }
  }

  lemma {:induction false} Associates(a: string, b: string, c: string)
    ensures a + b + c == a + (b + c)
  {
  }

  /** So does an escape sequence. */
  lemma {:induction false} KeepsEscape(p: Place, hex: string, t: string)
    requires AllPlain(hex)
    ensures CompactFrom(p, ESCAPE + hex + t) == ESCAPE + hex + CompactFrom(if p.Escaped? then Inside else p, t)
  {
    var rest := hex + t;
    Regroup(hex, t);
    Keeps(p, '\\', ['u'] + rest);
    Keeps(Next(p, '\\'), 'u', rest);
    var q := if p.Escaped? then Inside else p;
    KeepsPlain(q, hex, t);
    Regroup(hex, CompactFrom(q, t));
  }

  lemma {:induction false} Regroup(hex: string, t: string)
    ensures ESCAPE + hex + t == ['\\'] + (['u'] + (hex + t))
  {
    assert ESCAPE == ['\\'] + ['u'];
  }

  /** The markup an escape code stands for. */
  function Decoded(hex: string): Option<char> {
    if hex == "003c" then Some('<')
    else if hex == "003e" then Some('>')
    else if hex == "0026" then Some('&')
    else if hex == "2028" then Some('\U{2028}')
    else if hex == "2029" then Some('\U{2029}')
    else None
  }

  lemma {:induction false} CodesArePlain(hex: string)
    requires Decoded(hex).Some?
    ensures AllPlain(hex) && |hex| == 4 && Spelled(Decoded(hex).value) == ESCAPE + hex
  {
    assert AllPlain(hex[4..]);
    assert AllPlain(hex[3..]) && hex[3..][1..] == hex[4..];
    assert AllPlain(hex[2..]) && hex[2..][1..] == hex[3..];
    assert AllPlain(hex[1..]) && hex[1..][1..] == hex[2..];
  }

  /** It leaves the encoder where the character it stands for would have. */
  lemma {:induction false} KeepsSpelled(p: Place, c: char, t: string)
    requires !Skipped(p, c)
    ensures CompactFrom(p, Spelled(c) + t) == Spelled(c) + CompactFrom(Next(p, c), t)
  {
    if c in MARKUP {
      var hex := Spelled(c)[2..];
      assert Decoded(hex) == Some(c) && Spelled(c) == ESCAPE + hex;
      CodesArePlain(hex);
      KeepsEscape(p, hex, t);
    } else {
      Keeps(p, c, t);
    }
  }

  /** What has been through the encoder once comes out of it unchanged. */
  lemma {:induction false} CompactIsIdempotent(p: Place, s: string)
    ensures CompactFrom(p, CompactFrom(p, s)) == CompactFrom(p, s)
    decreases |s|
  {
    if s != "" {
      var c, rest := s[0], CompactFrom(Next(p, s[0]), s[1..]);
      CompactIsIdempotent(Next(p, c), s[1..]);
      if Skipped(p, c) {
        assert CompactFrom(p, s) == rest;
      } else {
        KeepsSpelled(p, c, rest);
      }
    }
  }

  /** No white space between tokens, and no markup. */
  predicate Clean(p: Place, s: string)
    decreases |s|
  {
    s == "" ||
    (&& !(p.Outside? && s[0] in {' ', '\t', '\r', '\n'}) && s[0] !in MARKUP
     && Clean(Next(p, s[0]), s[1..]))
  }

  lemma {:induction false} NoLeadingSpace(s: string)
    ensures CompactFrom(Outside, s) != "" ==> !Skipped(Outside, CompactFrom(Outside, s)[0])
    decreases |s|
  {
    if s != "" && Skipped(Outside, s[0]) {
      NoLeadingSpace(s[1..]);
    }
  }

  /** The encoder leaves exactly the clean texts alone. */
  lemma {:induction false} CleanIsUntouched(p: Place, s: string)
    ensures CompactFrom(p, s) == s <==> Clean(p, s)
    decreases |s|
  {
    if s != "" {
      var rest := CompactFrom(Next(p, s[0]), s[1..]);
      CleanIsUntouched(Next(p, s[0]), s[1..]);
      assert s == [s[0]] + s[1..];
      if Skipped(p, s[0]) {
        NoLeadingSpace(s[1..]);
        assert CompactFrom(p, s) == rest;
      } else if Spelled(s[0]) == [s[0]] {
        assert CompactFrom(p, s)[1..] == rest;
      } else {
        assert CompactFrom(p, s)[0] == '\\';
      }
    }
  }

  predicate Bare(c: char) {
    Spelled(c) == [c] && c != ' ' && c != '\t' && c != '\r' && c != '\n'
  }

  /** A text with neither white space nor markup anywhere is clean. */
  lemma {:induction false} BareIsClean(p: Place, s: string)
    requires forall i | 0 <= i < |s| :: Bare(s[i])
    ensures Clean(p, s)
    decreases |s|
  {
    if s != "" {
      assert forall i | 0 <= i < |s| - 1 :: s[1..][i] == s[i + 1];
      BareIsClean(Next(p, s[0]), s[1..]);
    }
  }

  /** A text with markup anywhere is not. */
  lemma {:induction false} MarkupIsNotClean(p: Place, s: string, i: nat)
    requires i < |s| && Spelled(s[i]) != [s[i]]
    ensures !Clean(p, s)
    decreases |s|
  {
    if i > 0 {
      MarkupIsNotClean(Next(p, s[0]), s[1..], i - 1);
    }
  }

  // ---- It says the same ----

  /** The text goes on with the escape code of some markup. */
  predicate StartsCoded(p: Place, s: string) {
    p.Inside? && |s| >= 6 && s[0] == '\\' && s[1] == 'u' && Decoded(s[2..6]).Some?
  }

  /** What a text says: white space between tokens is nothing, and markup in a string may be spelled out. */
  function Meaning(p: Place, s: string): string
    decreases |s|
  {
    if s == "" then ""
    else if StartsCoded(p, s) then [Decoded(s[2..6]).value] + Meaning(p, s[6..])
    else (if p.Outside? && s[0] in {' ', '\t', '\r', '\n'} then "" else [s[0]]) + Meaning(Next(p, s[0]), s[1..])
  }

  /** As in any JSON text, markup is found in strings only, and never right after a backslash. */
  predicate Proper(p: Place, s: string)
    decreases |s|
  {
    s == "" || ((s[0] in MARKUP ==> p.Inside?) && Proper(Next(p, s[0]), s[1..]))
  }

  /** Inside a string, plain characters the encoder's output starts with are those of its input. */
  lemma {:induction false} StartsAlike(w: string, t: string)
    requires AllPlain(w) && w <= CompactFrom(Inside, t)
    ensures w <= t
    decreases |w|
  {
    if w != "" {
      var rest := CompactFrom(Next(Inside, t[0]), t[1..]);
      assert CompactFrom(Inside, t) == Spelled(t[0]) + rest;
      assert w[0] == Spelled(t[0])[0];
      assert Spelled(t[0]) == [t[0]];
      PlainStays(Inside, t[0]);
      assert CompactFrom(Inside, t)[1..] == rest;
      assert w[1..] <= rest;
      StartsAlike(w[1..], t[1..]);
    }
  }

  /** What the encoder writes for one character says that character. */
  lemma {:induction false} SpelledSays(p: Place, c: char, t: string)
    requires c in MARKUP && p.Inside?
    ensures Meaning(p, Spelled(c) + t) == [c] + Meaning(p, t)
  {
    var hex := Spelled(c)[2..];
    assert Decoded(hex) == Some(c) && Spelled(c) == ESCAPE + hex;
    var s := Spelled(c) + t;
    assert s[2..6] == hex && s[6..] == t;
  }

  /** The output starts with a code only if the input does. */
  lemma {:induction false} NoNewCode(p: Place, s: string)
    requires s != "" && Proper(p, s) && Spelled(s[0]) == [s[0]]
    requires StartsCoded(p, [s[0]] + CompactFrom(Next(p, s[0]), s[1..]))
    ensures StartsCoded(p, s)
  {
    var out, t := [s[0]] + CompactFrom(Next(p, s[0]), s[1..]), s[1..];
    assert Spelled(t[0]) == [t[0]];
    var rest := CompactFrom(Inside, t[1..]);
    assert CompactFrom(Escaped, t) == [t[0]] + rest;
    assert out[2..6] == rest[..4];
    CodesArePlain(rest[..4]);
    StartsAlike(rest[..4], t[1..]);
    assert s[2..6] == t[1..][..4];
  }

  lemma {:induction false} ProperAfterCode(s: string)
    requires Proper(Inside, s) && StartsCoded(Inside, s)
    ensures Proper(Inside, s[6..])
  {
    var hex := s[2..6];
    CodesArePlain(hex);
    assert s[1..][0] == 'u' && s[1..][1..] == s[2..];
    assert Proper(Inside, s[2..]);
    assert s[2..] == hex + s[6..];
    ProperAfterPlain(hex, s[6..]);
  }

  lemma {:induction false} ProperAfterPlain(w: string, t: string)
    requires AllPlain(w) && Proper(Inside, w + t)
    ensures Proper(Inside, t)
    decreases |w|
  {
    if w == "" {
      assert w + t == t;
    } else {
      PlainStays(Inside, w[0]);
      assert (w + t)[1..] == w[1..] + t;
      ProperAfterPlain(w[1..], t);
    }
  }

  /** Whatever the encoder does to a JSON text, it says the same. */
  lemma {:induction false} CompactSaysTheSame(p: Place, s: string)
    requires Proper(p, s)
    ensures Meaning(p, CompactFrom(p, s)) == Meaning(p, s)
    decreases |s|
  {
    if s != "" {
      var c, rest := s[0], CompactFrom(Next(p, s[0]), s[1..]);
      if StartsCoded(p, s) {
        var hex := s[2..6];
        CodesArePlain(hex);
        ProperAfterCode(s);
        assert s == ESCAPE + hex + s[6..];
        KeepsEscape(p, hex, s[6..]);
        var out := ESCAPE + hex + CompactFrom(p, s[6..]);
        assert out[2..6] == hex && out[6..] == CompactFrom(p, s[6..]);
        CompactSaysTheSame(p, s[6..]);
      } else {
        CompactSaysTheSame(Next(p, c), s[1..]);
        if Skipped(p, c) {
          assert CompactFrom(p, s) == rest;
        } else if c in MARKUP {
          SpelledSays(p, c, rest);
        } else {
          assert Spelled(c) == [c];
          if StartsCoded(p, [c] + rest) { NoNewCode(p, s); }
          assert ([c] + rest)[1..] == rest;
        }
      }
    }
  }
}
