// The string operations the gateway uses, on ASCII letters.

module Text {
  function LowerChar(c: char): char {
    if 'A' <= c <= 'Z' then (c as int + 32) as char else c
  }

  function ToLower(s: string): string {
    seq(|s|, i requires 0 <= i < |s| => LowerChar(s[i]))
  }

  function UpperChar(c: char): char {
    if 'a' <= c <= 'z' then (c as int - 32) as char else c
  }

  function ToUpper(s: string): string {
    seq(|s|, i requires 0 <= i < |s| => UpperChar(s[i]))
  }

  predicate EqualFold(a: string, b: string) {
    ToLower(a) == ToLower(b)
  }

  predicate OccursAt(s: string, part: string, i: int) {
    0 <= i <= |s| - |part| && s[i..i + |part|] == part
  }

  predicate Contains(s: string, part: string) {
    exists i :: 0 <= i <= |s| && OccursAt(s, part, i)
  }

  predicate HasSuffix(s: string, suffix: string) {
    |s| >= |suffix| && s[|s| - |suffix|..] == suffix
  }

  const CAPITALS: string := "ABCDEFGHIJKLMNOPQRSTUVWXYZ"
  const SMALL: string := "abcdefghijklmnopqrstuvwxyz"

  lemma AlphabetCodes(i: nat)
    requires i < 26
    ensures CAPITALS[i] as int == 65 + i && SMALL[i] as int == 97 + i
  {
  }

  // Exactly the 26 capitals are lowered, each to its small letter ...
  lemma LowerCharIsTable(c: char)
    ensures forall i :: 0 <= i < 26 ==>
              LowerChar("ABCDEFGHIJKLMNOPQRSTUVWXYZ"[i]) == "abcdefghijklmnopqrstuvwxyz"[i]
    ensures c !in "ABCDEFGHIJKLMNOPQRSTUVWXYZ" ==> LowerChar(c) == c
  {
    forall i | 0 <= i < 26
      ensures LowerChar(CAPITALS[i]) == SMALL[i]
    {
      AlphabetCodes(i);
    }
    if 'A' <= c <= 'Z' {
      AlphabetCodes(c as int - 65);
      assert CAPITALS[c as int - 65] == c;
    }
  }

  // ... and exactly the small letters are raised.
  lemma UpperCharIsTable(c: char)
    ensures forall i :: 0 <= i < 26 ==>
              UpperChar("abcdefghijklmnopqrstuvwxyz"[i]) == "ABCDEFGHIJKLMNOPQRSTUVWXYZ"[i]
    ensures c !in "abcdefghijklmnopqrstuvwxyz" ==> UpperChar(c) == c
  {
    forall i | 0 <= i < 26
      ensures UpperChar(SMALL[i]) == CAPITALS[i]
    {
      AlphabetCodes(i);
    }
    if 'a' <= c <= 'z' {
      AlphabetCodes(c as int - 97);
      assert SMALL[c as int - 97] == c;
    }
  }

  // A letter in its two cases.
  predicate OtherCase(c: char, d: char) {
    exists i :: 0 <= i < 26 && CAPITALS[i] in {c, d} && SMALL[i] in {c, d}
  }

  predicate SameButCase(a: string, b: string) {
    |a| == |b| && forall i :: 0 <= i < |a| ==> a[i] == b[i] || OtherCase(a[i], b[i])
  }

  lemma FoldChar(c: char, d: char)
    ensures LowerChar(c) == LowerChar(d) <==> c == d || OtherCase(c, d)
  {
    if 'A' <= c <= 'Z' {
      AlphabetCodes(c as int - 65);
    }
    if 'A' <= d <= 'Z' {
      AlphabetCodes(d as int - 65);
    }
    if i :| 0 <= i < 26 && CAPITALS[i] in {c, d} && SMALL[i] in {c, d} {
      AlphabetCodes(i);
    }
  }

  // Two strings are equal under folding exactly when they differ at most in the case of letters.
  lemma FoldIgnoresExactlyCase(a: string, b: string)
    ensures EqualFold(a, b) <==> SameButCase(a, b)
  {
    hide LowerChar, OtherCase;
    assert |ToLower(a)| == |a| && |ToLower(b)| == |b|;
    forall i | 0 <= i < |a| && i < |b|
      ensures ToLower(a)[i] == ToLower(b)[i] <==> a[i] == b[i] || OtherCase(a[i], b[i])
    {
      FoldChar(a[i], b[i]);
    }
  }

  predicate SpelledAt(s: string, word: string, i: int) {
    0 <= i <= |s| - |word| && SameButCase(s[i..i + |word|], word)
  }

  // Some part of the string spells the word, in whatever case.
  predicate Spells(s: string, word: string) {
    exists i :: 0 <= i <= |s| && SpelledAt(s, word, i)
  }

  // Looking for a word of small letters in a lowered string is looking for it in any case.
  lemma ContainsAnyCase(s: string, word: string)
    requires ToLower(word) == word
    ensures Contains(ToLower(s), word) <==> Spells(s, word)
  {
    forall i | 0 <= i <= |s|
      ensures OccursAt(ToLower(s), word, i) <==> SpelledAt(s, word, i)
    {
      if i <= |s| - |word| {
        FoldIgnoresExactlyCase(s[i..i + |word|], word);
        assert ToLower(s)[i..i + |word|] == ToLower(s[i..i + |word|]);
      }
    }
  }

  lemma SmallWords()
    ensures ToLower("key") == "key" && ToLower("password") == "password"
    ensures ToLower("token") == "token" && ToLower("secret") == "secret"
  {
  }
}
