/** `_canonical.py` and `physical_name`: physical identifiers and their quoting. */
module Identifiers {
  import opened Common

  predicate IsStart(c: char) { 'A' <= c <= 'Z' || 'a' <= c <= 'z' || c == '_' }

  predicate IsPart(c: char) { IsStart(c) || '0' <= c <= '9' }

  predicate AllParts(s: string) { forall i :: 0 <= i < |s| ==> IsPart(s[i]) }

  /** `physical_identifier`: one letter or underscore and up to 126 word characters. */
  predicate PhysicalIdentifier(s: string) {
    1 <= |s| <= 127 && IsStart(s[0]) && AllParts(s)
  }

  /** Capital letters, small letters and digits by code point. */
  predicate Capital(c: char) { 65 <= c as int <= 90 }
  predicate Small(c: char) { 97 <= c as int <= 122 }
  predicate Figure(c: char) { 48 <= c as int <= 57 }

  /** The accepted identifiers, character by character. */
  lemma {:induction false} IdentifierExact(s: string)
    ensures PhysicalIdentifier(s) <==>
            && 0 < |s| < 128 && !Figure(s[0])
            && forall c :: c in s ==> Capital(c) || Small(c) || Figure(c) || c == '_'
  {
    if |s| > 0 { assert s[0] in s; }
    assert forall c :: IsPart(c) <==> Capital(c) || Small(c) || Figure(c) || c == '_';
    assert AllParts(s) <==> forall c :: c in s ==> IsPart(c);
  }

  // ---- Quoting --------------------------------------------------------------

  function Doubled(s: string): string {
    if s == "" then "" else (if s[0] == '`' then "``" else [s[0]]) + Doubled(s[1..])
  }

  function QuoteIdentifier(s: string): Result<string> {
    if s == "" || '\0' in s then Err(BadSyntax) else Ok("`" + Doubled(s) + "`")
  }

  /** How a lexer reads on inside backticks: a doubled backtick is one, a single one ends the name. */
  function Unquote(text: string): (r: Option<(string, string)>)
    ensures r.Some? ==> |r.value.1| < |text|
  {
    if text == "" then None
    else if text[0] != '`' then
      match Unquote(text[1..])
      case None => None
      case Some((name, rest)) => Some(([text[0]] + name, rest))
    else if |text| >= 2 && text[1] == '`' then
      match Unquote(text[2..])
      case None => None
      case Some((name, rest)) => Some((['`'] + name, rest))
    else Some(("", text[1..]))
  }

  lemma {:induction false} UnquoteDoubled(s: string, rest: string)
    requires rest == "" || rest[0] != '`'
    ensures Unquote(Doubled(s) + "`" + rest) == Some((s, rest))
  {
    var text := Doubled(s) + "`" + rest;
    if s == "" {
      assert text == "`" + rest;
      assert text[1..] == rest;
    } else {
      UnquoteDoubled(s[1..], rest);
      var tail := Doubled(s[1..]) + "`" + rest;
      assert s == [s[0]] + s[1..];
      if s[0] == '`' {
        assert text == "``" + tail && text[2..] == tail;
      } else {
        assert text == [s[0]] + tail && text[1..] == tail;
      }
    }
  }

  /** A quoted name is read back whole from the text, whatever follows it, so quoting is injective. */
  lemma {:induction false} QuotedNameIsRead(s: string, rest: string)
    requires QuoteIdentifier(s).Ok?
    requires rest == "" || rest[0] != '`'
    ensures var text := QuoteIdentifier(s).value + rest;
            text[0] == '`' && Unquote(text[1..]) == Some((s, rest))
  {
    hide Doubled, Unquote;
    UnquoteDoubled(s, rest);
    assert (QuoteIdentifier(s).value + rest)[1..] == Doubled(s) + "`" + rest;
  }

  /** What is read as a quoted name is one: the reading determines the text. */
  lemma {:induction false} UnquoteExact(text: string)
    requires Unquote(text).Some?
    ensures var (name, rest) := Unquote(text).value;
            text == Doubled(name) + "`" + rest && (rest == "" || rest[0] != '`')
  {
    var (name, rest) := Unquote(text).value;
    if text[0] != '`' {
      UnquoteExact(text[1..]);
      assert name[1..] == Unquote(text[1..]).value.0;
      assert text == [text[0]] + text[1..];
    } else if |text| >= 2 && text[1] == '`' {
      UnquoteExact(text[2..]);
      assert name[1..] == Unquote(text[2..]).value.0;
      assert text == "``" + text[2..];
    }
  }

  lemma {:induction false} QuoteInjective(a: string, b: string)
    requires QuoteIdentifier(a).Ok? && QuoteIdentifier(a) == QuoteIdentifier(b)
    ensures a == b
  {
    QuotedNameIsRead(a, "");
    QuotedNameIsRead(b, "");
    assert QuoteIdentifier(a).value + "" == QuoteIdentifier(a).value;
  }

  // ---- Lists of names in engine metadata ------------------------------------

  /** The engine prints a sorting key as bare names separated by a comma and a space. */
  function JoinNames(names: seq<string>): string {
    if names == [] then "" else if |names| == 1 then names[0] else names[0] + ", " + JoinNames(names[1..])
  }

  ghost predicate PlainNames(names: seq<string>) {
    forall n :: n in names ==> n != "" && AllParts(n)
  }

  function WordLength(s: string): (n: nat)
    ensures n <= |s|
  {
    if s == "" || !IsPart(s[0]) then 0 else 1 + WordLength(s[1..])
  }

  lemma {:induction false} WordLengthExact(word: string, rest: string)
    requires AllParts(word) && (rest == "" || !IsPart(rest[0]))
    ensures WordLength(word + rest) == |word|
  {
    if word == "" {
      assert word + rest == rest;
    } else {
      WordLengthExact(word[1..], rest);
      assert (word + rest)[1..] == word[1..] + rest;
    }
  }

  lemma {:induction false} JoinSplits(names: seq<string>) returns (rest: string)
    requires PlainNames(names) && names != []
    ensures JoinNames(names) == names[0] + rest
    ensures rest == (if |names| == 1 then "" else ", " + JoinNames(names[1..]))
    ensures WordLength(JoinNames(names)) == |names[0]|
  {
    rest := if |names| == 1 then "" else ", " + JoinNames(names[1..]);
    assert JoinNames(names) == names[0] + rest;
    WordLengthExact(names[0], rest);
  }

  lemma {:induction false} JoinNonEmpty(names: seq<string>)
    requires PlainNames(names) && names != []
    ensures JoinNames(names) != ""
  {
    assert names[0] in names;
  }

  lemma {:induction false} PlainTail(names: seq<string>)
    requires PlainNames(names) && names != []
    ensures PlainNames(names[1..])
  {
    forall n | n in names[1..] ensures n != "" && AllParts(n) { assert n in names; }
  }

  /** Comparing the printed keys compares the key lists. */
  lemma {:induction false} JoinInjective(a: seq<string>, b: seq<string>)
    requires PlainNames(a) && PlainNames(b)
    requires JoinNames(a) == JoinNames(b)
    ensures a == b
    decreases |a|
  {
    hide WordLength, PlainNames;
    if a == [] || b == [] {
      if a != [] { JoinNonEmpty(a); }
      if b != [] { JoinNonEmpty(b); }
    } else {
      var ra := JoinSplits(a);
      var rb := JoinSplits(b);
      var text := JoinNames(a);
      assert a[0] == text[..|a[0]|] && b[0] == text[..|b[0]|];
      assert ra == text[|a[0]|..] && rb == text[|b[0]|..];
      if |a| == 1 || |b| == 1 {
        assert a == [a[0]] && b == [b[0]];
      } else {
        assert JoinNames(a[1..]) == ra[2..] && JoinNames(b[1..]) == rb[2..];
        PlainTail(a);
        PlainTail(b);
        JoinInjective(a[1..], b[1..]);
        assert a == [a[0]] + a[1..] && b == [b[0]] + b[1..];
      }
    }
  }

  // ---- Generated names ------------------------------------------------------

  /** Runs of characters outside the word class become one underscore. */
  function Squash(s: string, inRun: bool): (r: string)
    ensures AllParts(r)
  {
    if s == "" then ""
    else if IsPart(s[0]) then [s[0]] + Squash(s[1..], false)
    else if inRun then Squash(s[1..], true)
    else "_" + Squash(s[1..], true)
  }

  function StripLeft(s: string): (r: string)
    ensures AllParts(s) ==> AllParts(r)
    ensures r != "" ==> r[0] != '_'
  {
    if s != "" && s[0] == '_' then StripLeft(s[1..]) else s
  }

  function StripRight(s: string): (r: string)
    ensures r <= s
  {
    if s != "" && s[|s| - 1] == '_' then StripRight(s[..|s| - 1]) else s
  }

  function Lower(s: string): (r: string)
    ensures |r| == |s|
    ensures AllParts(s) ==> AllParts(r)
    ensures s != "" && s[0] != '_' ==> r[0] != '_'
  {
    seq(|s|, i requires 0 <= i < |s| => if 'A' <= s[i] <= 'Z' then s[i] + ' ' else s[i])
  }

  /** `physical_name`, given the ASCII form of the logical name and the first twelve
      hexadecimal characters of its digest. */
  function PhysicalName(ascii: string, digest: string, prefix: string): string {
    var stripped := Lower(StripRight(StripLeft(Squash(ascii, false))));
    var stem := if stripped == "" then prefix else stripped;
    var safe := if stem != "" && '0' <= stem[0] <= '9' then prefix + "_" + stem else stem;
    (if |safe| > 100 then safe[..100] else safe) + "_" + digest
  }

  lemma {:induction false} NameWithDigest(cut: string, digest: string)
    requires 1 <= |cut| <= 100 && AllParts(cut) && IsStart(cut[0]) && cut[0] != '_'
    requires |digest| == 12 && AllParts(digest)
    ensures var name := cut + "_" + digest; PhysicalIdentifier(name) && name[0] != '_' && name[|name| - 12..] == digest
  {}

  /** A generated name is always accepted as a physical identifier, never starts with the
      underscore of the reserved columns, and ends in the digest of the logical name. */
  lemma {:induction false} PhysicalNameIsIdentifier(ascii: string, digest: string, prefix: string)
    requires prefix in {"m", "c", "idx"}
    requires |digest| == 12 && AllParts(digest)
    ensures var name := PhysicalName(ascii, digest, prefix);
            PhysicalIdentifier(name) && name[0] != '_' && name[|name| - 12..] == digest
  {
    hide Squash, StripLeft, StripRight, Lower;
    var left := StripLeft(Squash(ascii, false));
    var stripped := Lower(StripRight(left));
    assert AllParts(StripRight(left));
    var stem := if stripped == "" then prefix else stripped;
    assert stem != "" && AllParts(stem) && stem[0] != '_';
    var safe := if '0' <= stem[0] <= '9' then prefix + "_" + stem else stem;
    assert AllParts(safe) && IsStart(safe[0]) && safe[0] != '_';
    var cut := if |safe| > 100 then safe[..100] else safe;
    assert PhysicalName(ascii, digest, prefix) == cut + "_" + digest;
    NameWithDigest(cut, digest);
  }

  lemma {:induction false} SquashSafe(b: string, inRun: bool)
    requires AllParts(b)
    ensures Squash(b, inRun) == b
  {
    if b != "" { SquashSafe(b[1..], false); }
  }

  lemma {:induction false} SquashRun(run: string, b: string, inRun: bool)
    requires (forall c :: c in run ==> !IsPart(c)) && AllParts(b)
    ensures Squash(run + b, inRun) == if inRun || run == "" then b else "_" + b
  {
    if run != "" {
      SquashRun(run[1..], b, true);
      assert (run + b)[1..] == run[1..] + b;
      assert run[0] in run;
    } else {
      assert run + b == b;
      SquashSafe(b, inRun);
    }
  }

  /** Word characters are kept, and a run of others between two of them becomes one underscore. */
  lemma {:induction false} SquashWords(a: string, run: string, b: string, inRun: bool)
    requires AllParts(a) && run != "" && (forall c :: c in run ==> !IsPart(c)) && AllParts(b)
    ensures Squash(a, inRun) == a
    ensures a != "" ==> Squash(a + run + b, inRun) == a + "_" + b
  {
    if a != "" {
      SquashWords(a[1..], run, b, false);
      assert (a + run + b)[1..] == a[1..] + run + b;
      if |a| == 1 {
        assert (a + run + b)[1..] == run + b;
        SquashRun(run, b, false);
      }
    }
  }

  /** Lower-casing replaces each capital by its small letter and nothing else. */
  lemma {:induction false} LowerExact(s: string, i: nat)
    requires i < |s|
    ensures Lower(s)[i] as int == s[i] as int + if Capital(s[i]) then 32 else 0
  {}

  lemma {:induction false} NothingToStrip(word: string)
    requires word != "" && word[0] != '_' && word[|word| - 1] != '_'
    ensures StripLeft(word) == word && StripRight(word) == word
    ensures Figure(Lower(word)[0]) <==> Figure(word[0])
  {}

  /** What a logical name becomes when it begins and ends in a letter or digit: two words with
      anything else between them keep their characters, in lower case and joined by one
      underscore, behind the prefix if the name begins with a digit. */
  lemma {:induction false} GeneratedWords(a: string, run: string, b: string, digest: string, prefix: string)
    requires AllParts(a) && (forall c :: c in run ==> !IsPart(c)) && AllParts(b)
    requires a != "" && a[0] != '_' && b != "" && b[|b| - 1] != '_' && run != ""
    requires |prefix| + |a| + |b| < 99
    ensures PhysicalName(a + run + b, digest, prefix)
         == (if Figure(a[0]) then prefix + "_" else "") + Lower(a + "_" + b) + "_" + digest
  {
    hide Squash, StripLeft, StripRight, Lower;
    SquashWords(a, run, b, false);
    var word := a + "_" + b;
    NothingToStrip(word);
    var stem := Lower(word);
    assert stem != "" && |stem| == |word|;
    var safe := if Figure(a[0]) then prefix + "_" + stem else stem;
    assert PhysicalName(a + run + b, digest, prefix) == safe + "_" + digest;
  }

  /** A name without a letter, digit or underscore takes the prefix alone. */
  lemma {:induction false} GeneratedPlain(run: string, digest: string, prefix: string)
    requires forall c :: c in run ==> !IsPart(c)
    requires prefix in {"m", "c", "idx"}
    ensures PhysicalName(run, digest, prefix) == prefix + "_" + digest
  {
    assert run + "" == run;
    SquashRun(run, "", false);
    assert Squash(run, false) == if run == "" then "" else "_";
    assert StripLeft("_") == "" && StripLeft("") == "";
  }
}
