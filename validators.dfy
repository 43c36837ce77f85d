/**
 * The two character-set validators of helpers/validators.py. Each is a
 * regular expression of the shape `^[C]*$` (C a character class), applied
 * with Python's `re.search`: a string is accepted when the pattern matches.
 */
module Validators {

  /** Every character of `s` belongs to the class `cls`. */
  predicate AllIn(s: string, cls: char -> bool)
  {
    forall i :: 0 <= i < |s| ==> cls(s[i])
  }

  /**
   * Python's reading of `^[C]*$`. Without the MULTILINE flag `$` matches at
   * the end of the string and also just before a line feed that ends it, so
   * the starred class may stop one character short of the end.
   */
  predicate AnchoredStarMatches(s: string, cls: char -> bool)
  {
    AllIn(s, cls) || (|s| > 0 && s[|s| - 1] == '\n' && AllIn(s[..|s| - 1], cls))
  }

  // ---- isalphavalidator ----------------------------------------------------

  /** The accented letters listed in the class of `isalphavalidator`. */
  predicate IsAccentedLetter(c: char)
  {
    c in
    {'á', 'à', 'â', 'ä', 'ã', 'å', 'ç', 'é', 'è', 'ê', 'ë', 'í', 'ì', 'î', 'ï',
     'ñ', 'ó', 'ò', 'ô', 'ö', 'õ', 'ú', 'ù', 'û', 'ü', 'ý', 'ÿ', 'æ', 'œ',
     'Á', 'À', 'Â', 'Ä', 'Ã', 'Å', 'Ç', 'É', 'È', 'Ê', 'Ë', 'Í', 'Ì', 'Î', 'Ï',
     'Ñ', 'Ó', 'Ò', 'Ô', 'Ö', 'Õ', 'Ú', 'Ù', 'Û', 'Ü', 'Ý', 'Ÿ', 'Æ', 'Œ'}
  }

  /** The separators the class admits besides letters. */
  predicate IsAlphaSeparator(c: char)
  {
    c in {'.', '_', ' ', '-'}
  }

  predicate IsAsciiLetter(c: char)
  {
    ('A' <= c <= 'Z') || ('a' <= c <= 'z')
  }

  /** Membership in `[A-Za-z<accented letters>._\ -]`. */
  predicate InAlphaClass(c: char)
  {
    IsAsciiLetter(c) || IsAccentedLetter(c) || IsAlphaSeparator(c)
  }

  /** Characters below 'A' other than the separators are outside the class. */
  lemma NotAlphaBelowLetters(c: char)
    requires c < 'A' && !IsAlphaSeparator(c)
    ensures !InAlphaClass(c)
  {
  }

  /** `isalphavalidator` as the pattern is written, `$` included. */
  predicate IsAlphaAsWritten(s: string): (ok: bool)
    ensures ok <==> IsAlpha(s) || (|s| > 0 && s[|s| - 1] == '\n' && IsAlpha(s[..|s| - 1]))
  {
    AnchoredStarMatches(s, InAlphaClass)
  }

  /**
   * `isalphavalidator` as its message describes it: every character is a
   * letter or one of the separators, and nothing else.
   */
  predicate IsAlpha(s: string)
  {
    AllIn(s, InAlphaClass)
  }

  /** The pattern as written accepts one line feed more than the class allows. */
  lemma AlphaAsWrittenAcceptsTrailingLineFeed()
    ensures IsAlphaAsWritten("a\n") && !IsAlpha("a\n")
  {
    assert "a\n"[..1] == "a";
    NotAlphaBelowLetters('\n');
  }

  /** As written, acceptance is not closed under concatenation. */
  lemma AlphaAsWrittenNotClosedUnderConcat()
    ensures IsAlphaAsWritten("a\n") && IsAlphaAsWritten("b")
    ensures !IsAlphaAsWritten("a\n" + "b")
  {
    AlphaAsWrittenAcceptsTrailingLineFeed();
    assert IsAlpha("b");
    var s := "a\n" + "b";
    assert s[1] == '\n' && !InAlphaClass(s[1]);
    assert s[2] != '\n';
    assert s[..2][1] == '\n';
  }

  /** Accepted strings are closed under concatenation. */
  lemma AlphaConcat(s: string, t: string)
    requires IsAlpha(s) && IsAlpha(t)
    ensures IsAlpha(s + t)
  {
  }

  // ---- ischarfieldvalidator ------------------------------------------------

  /** The characters the negated class of `ischarfieldvalidator` excludes. */
  predicate IsForbiddenInCharField(c: char)
  {
    c in {'&', '¤', '@', '=', '%', '<', '>', '#', '~', '`', '/', '§', '^', '$',
          '\\', '|', '{', '}', '[', ']', '+', '*', '.'}
  }

  predicate InCharFieldClass(c: char)
  {
    !IsForbiddenInCharField(c)
  }

  /**
   * `ischarfieldvalidator`, `$` included. The line feed is outside the
   * forbidden set, so the trailing-line-feed reading adds nothing and the
   * validator is a plain per-character test.
   */
  predicate IsCharField(s: string)
  {
    AnchoredStarMatches(s, InCharFieldClass)
  }

  /** The validator accepts a string iff no character of it is excluded. */
  lemma CharFieldIsPerCharacter(s: string)
    ensures IsCharField(s) <==> forall i :: 0 <= i < |s| ==> !IsForbiddenInCharField(s[i])
  {
    if |s| > 0 && s[|s| - 1] == '\n' && AllIn(s[..|s| - 1], InCharFieldClass) {
      forall i | 0 <= i < |s| ensures InCharFieldClass(s[i]) {
        if i < |s| - 1 { assert s[..|s| - 1][i] == s[i]; }
      }
    }
  }

  lemma CharFieldConcat(s: string, t: string)
    requires IsCharField(s) && IsCharField(t)
    ensures IsCharField(s + t)
  {
    CharFieldIsPerCharacter(s);
    CharFieldIsPerCharacter(t);
    CharFieldIsPerCharacter(s + t);
  }

  // ---- the two validators side by side -------------------------------------

  lemma EmptyAccepted()
    ensures IsAlphaAsWritten("") && IsAlpha("") && IsCharField("")
  {
  }

  /** '.' passes the letters validator and fails the other; a digit the reverse. */
  lemma DotAndDigits(d: char)
    requires '0' <= d <= '9'
    ensures IsAlpha(".") && !IsCharField(".")
    ensures !IsAlphaAsWritten([d]) && IsCharField([d])
  {
    CharFieldIsPerCharacter(".");
    assert IsForbiddenInCharField("."[0]);
    assert [d][0] == d;
    NotAlphaBelowLetters(d);
  }
}
