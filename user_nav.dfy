/** `getInitials` of the user menu (src/components/user-nav.tsx): split the
    name on single spaces and join the first characters of the first and
    last parts, or take the first two characters of a name without spaces.
    JavaScript values are modelled where the code produces them: indexing an
    empty string yields `undefined`, `undefined + "x"` is the text
    "undefinedx", and `undefined + undefined` is `NaN`. */
module UserNav {
  import opened Common

  /** `name.split(' ')`: the maximal space-free pieces between single
      spaces, empty pieces included. */
  function Split(s: string): (parts: seq<string>)
    ensures |parts| >= 1
    ensures forall i :: 0 <= i < |parts| ==> ' ' !in parts[i]
  {
    if s == [] then [[]]
    else
      var rest := Split(s[1..]);
      if s[0] == ' ' then [[]] + rest else [[s[0]] + rest[0]] + rest[1..]
  }

  /** `parts.join(' ')`. */
  function Join(parts: seq<string>): string
    requires |parts| >= 1
  {
    if |parts| == 1 then parts[0] else parts[0] + " " + Join(parts[1..])
  }

  /** Joining the pieces gives the name back. */
  lemma {:induction false} JoinSplit(s: string)
    ensures Join(Split(s)) == s
  {
    if s != [] {
      var rest := Split(s[1..]);
      JoinSplit(s[1..]);
      if s[0] != ' ' {
        var parts := Split(s);
        if |rest| == 1 {
          assert parts == [[s[0]] + rest[0]];
        } else {
          assert parts[1..] == rest[1..];
        }
      }
    }
  }

  /** A space-free string is one piece. */
  lemma {:induction false} SplitWord(p: string)
    requires ' ' !in p
    ensures Split(p) == [p]
  {
    if p != [] {
      assert ' ' !in p[1..] && p[0] != ' ';
      SplitWord(p[1..]);
      assert [p[0]] + p[1..] == p;
    }
  }

  /** A space-free word followed by a space is split off as one piece. */
  lemma {:induction false} SplitAfterWord(p: string, rest: string)
    requires ' ' !in p
    ensures Split(p + " " + rest) == [p] + Split(rest)
  {
    if p == [] {
      assert p + " " + rest == [' '] + rest;
      assert (p + " " + rest)[1..] == rest;
    } else {
      assert (p + " " + rest)[1..] == p[1..] + " " + rest;
      SplitAfterWord(p[1..], rest);
      assert [p[0]] + p[1..] == p;
    }
  }

  /** Splitting space-free pieces joined by spaces gives the pieces back. */
  lemma {:induction false} SplitJoin(parts: seq<string>)
    requires |parts| >= 1
    requires forall i :: 0 <= i < |parts| ==> ' ' !in parts[i]
    ensures Split(Join(parts)) == parts
  {
    if |parts| == 1 {
      SplitWord(parts[0]);
    } else {
      SplitAfterWord(parts[0], Join(parts[1..]));
      SplitJoin(parts[1..]);
    }
  }

  /** The JavaScript values `getInitials` can return. */
  datatype JsValue = Text(s: string) | NaN

  /** `part[0]`: `undefined` for an empty part. */
  function FirstChar(part: string): Option<char> {
    if part == [] then None else Some(part[0])
  }

  const Undefined: string := "undefined"

  /** `a + b` on two one-character strings that may be `undefined`. */
  function PlusChars(a: Option<char>, b: Option<char>): JsValue {
    match (a, b)
    case (Some(x), Some(y)) => Text([x, y])
    case (None, Some(y)) => Text(Undefined + [y])
    case (Some(x), None) => Text([x] + Undefined)
    case (None, None) => NaN
  }

  function Min(a: int, b: int): int {
    if a < b then a else b
  }

  /** `getInitials(name)` as written: `NaN` exactly when the name has a
      space and both its first and last parts are empty. */
  function GetInitialsAsWritten(name: string): (initials: JsValue)
    ensures initials == NaN <==>
      |Split(name)| > 1 && Split(name)[0] == [] && Split(name)[|Split(name)| - 1] == []
  {
    var parts := Split(name);
    if |parts| > 1 then PlusChars(FirstChar(parts[0]), FirstChar(parts[|parts| - 1]))
    else Text(name[..Min(2, |name|)])
  }

  /** First name, any middle names, last name: the initials are the first
      characters of the first and last names, exactly two characters, and
      the middle names do not contribute. */
  lemma InitialsOfFullName(first: string, middle: seq<string>, last: string)
    requires first != [] && last != [] && ' ' !in first && ' ' !in last
    requires forall i :: 0 <= i < |middle| ==> ' ' !in middle[i]
    ensures GetInitialsAsWritten(Join([first] + middle + [last])) == Text([first[0], last[0]])
  {
    FullNameSplit(first, middle, last);
  }

  /** A full name splits back into its first, middle and last names. */
  lemma FullNameSplit(first: string, middle: seq<string>, last: string)
    requires ' ' !in first && ' ' !in last
    requires forall i :: 0 <= i < |middle| ==> ' ' !in middle[i]
    ensures Split(Join([first] + middle + [last])) == [first] + middle + [last]
  {
    var parts := [first] + middle + [last];
    SpaceFreeParts(first, middle, last);
    SplitJoin(parts);
  }

  lemma SpaceFreeParts(first: string, middle: seq<string>, last: string)
    requires ' ' !in first && ' ' !in last
    requires forall i :: 0 <= i < |middle| ==> ' ' !in middle[i]
    ensures forall i :: 0 <= i < |[first] + middle + [last]| ==> ' ' !in ([first] + middle + [last])[i]
  {
    var parts := [first] + middle + [last];
    forall i | 0 <= i < |parts|
      ensures ' ' !in parts[i]
    {
      if i == 0 {
        assert parts[i] == first;
      } else if i == |parts| - 1 {
        assert parts[i] == last;
      } else {
        assert parts[i] == middle[i - 1];
      }
    }
  }

  /** A name without spaces gives its first two characters (fewer if it is
      shorter). */
  lemma InitialsOfSingleWord(name: string)
    requires ' ' !in name
    ensures GetInitialsAsWritten(name) == Text(name[..Min(2, |name|)])
  {
    SplitWord(name);
  }

  /** A trailing space leaves an empty last part, and its `undefined` first
      character is concatenated as text: "Alice " gives "Aundefined". */
  lemma TrailingSpaceAsWritten(word: string)
    requires word != [] && ' ' !in word
    ensures GetInitialsAsWritten(word + " ") == Text([word[0]] + Undefined)
  {
    SplitAfterWord(word, "");
    assert word + " " + "" == word + " ";
  }

  /** A lone space gives two empty parts, and `undefined + undefined` is
      `NaN`. */
  lemma LoneSpaceAsWritten()
    ensures GetInitialsAsWritten(" ") == NaN
  {
    SplitAfterWord("", "");
    assert "" + " " + "" == " ";
  }

  /** The non-empty parts of a split: every kept part is non-empty and
      comes from `parts`, and every non-empty part is kept; `WordsConcat`
      gives the order. */
  function Words(parts: seq<string>): (words: seq<string>)
    ensures forall i :: 0 <= i < |words| ==> words[i] != [] && words[i] in parts
    ensures forall i :: 0 <= i < |parts| && parts[i] != [] ==> parts[i] in words
  {
    if parts == [] then []
    else (if parts[0] != [] then [parts[0]] else []) + Words(parts[1..])
  }

  /** Keeping the non-empty parts distributes over concatenation, so the
      kept parts stay in their original order. */
  lemma {:induction false} WordsConcat(a: seq<string>, b: seq<string>)
    ensures Words(a + b) == Words(a) + Words(b)
  {
    if a == [] {
      assert a + b == b;
    } else {
      var head := if a[0] != [] then [a[0]] else [];
      assert (a + b)[0] == a[0] && (a + b)[1..] == a[1..] + b;
      WordsConcat(a[1..], b);
      calc {
        Words(a + b);
        head + Words(a[1..] + b);
        head + (Words(a[1..]) + Words(b));
        (head + Words(a[1..])) + Words(b);
      }
    }
  }

  /** The words of a split contain no space. */
  lemma WordsSpaceFree(parts: seq<string>)
    requires forall i :: 0 <= i < |parts| ==> ' ' !in parts[i]
    ensures forall i :: 0 <= i < |Words(parts)| ==> ' ' !in Words(parts)[i]
  {
    var words := Words(parts);
    forall i | 0 <= i < |words|
      ensures ' ' !in words[i]
    {
      var k :| 0 <= k < |parts| && parts[k] == words[i];
    }
  }

  /** Initials taken from the non-empty words of the name: never `NaN`, never
      the text "undefined". */
  function GetInitials(name: string): (initials: string)
    ensures |initials| <= 2
    ensures forall i :: 0 <= i < |initials| ==> initials[i] in name && initials[i] != ' '
  {
    var words := Words(Split(name));
    if |words| > 1 then
      WordCharsInName(name, words[0]);
      WordCharsInName(name, words[|words| - 1]);
      [words[0][0], words[|words| - 1][0]]
    else if |words| == 1 then
      WordCharsInName(name, words[0]);
      words[0][..Min(2, |words[0]|)]
    else []
  }

  /** Every character of a piece of the name occurs in the name. */
  lemma WordCharsInName(name: string, word: string)
    requires word in Split(name)
    ensures forall c :: c in word ==> c in name
  {
    var parts := Split(name);
    var k :| 0 <= k < |parts| && parts[k] == word;
    JoinSplit(name);
    JoinCharsFromParts(parts, k);
  }

  lemma {:induction false} JoinCharsFromParts(parts: seq<string>, k: nat)
    requires |parts| >= 1 && k < |parts|
    ensures forall c :: c in parts[k] ==> c in Join(parts)
  {
    if |parts| > 1 {
      if k > 0 {
        JoinCharsFromParts(parts[1..], k - 1);
      }
      assert Join(parts) == parts[0] + " " + Join(parts[1..]);
    }
  }

  /** The corrected initials are the code's initials of the name with its
      empty parts dropped (the words joined by single spaces), and empty
      when the name has no word at all. */
  lemma GetInitialsOfWords(name: string)
    ensures |Words(Split(name))| >= 1 ==>
      Text(GetInitials(name)) == GetInitialsAsWritten(Join(Words(Split(name))))
    ensures |Words(Split(name))| == 0 ==> GetInitials(name) == []
  {
    var words := Words(Split(name));
    CorrectedOfWords(name, words);
    if |words| >= 1 {
      var joined := Join(words);
      WordsSpaceFree(Split(name));
      SplitJoin(words);
      if |words| == 1 {
        assert joined == words[0];
        AsWrittenOfOnePart(joined, words[0]);
      } else {
        AsWrittenOfParts(joined, words);
      }
    }
  }

  /** The corrected initials, read off the words of the name. */
  lemma CorrectedOfWords(name: string, words: seq<string>)
    requires Words(Split(name)) == words
    ensures |words| >= 2 ==> GetInitials(name) == [words[0][0], words[|words| - 1][0]]
    ensures |words| == 1 ==> GetInitials(name) == words[0][..Min(2, |words[0]|)]
    ensures |words| == 0 ==> GetInitials(name) == []
  {
    if |words| >= 2 {
      assert GetInitials(name) == [words[0][0], words[|words| - 1][0]];
    } else if |words| == 1 {
      assert GetInitials(name) == words[0][..Min(2, |words[0]|)];
    }
  }

  /** The code's initials of a name split into several parts whose first and
      last are non-empty. */
  lemma AsWrittenOfParts(name: string, parts: seq<string>)
    requires Split(name) == parts && |parts| >= 2 && parts[0] != [] && parts[|parts| - 1] != []
    ensures GetInitialsAsWritten(name) == Text([parts[0][0], parts[|parts| - 1][0]])
  {
  }

  /** The code's initials of a name that is one part. */
  lemma AsWrittenOfOnePart(name: string, part: string)
    requires Split(name) == [part] && name == part
    ensures GetInitialsAsWritten(name) == Text(part[..Min(2, |part|)])
  {
  }

  /** On well-formed names, the corrected initials agree with the code as
      written. */
  lemma GetInitialsAgrees(first: string, middle: seq<string>, last: string)
    requires first != [] && last != [] && ' ' !in first && ' ' !in last
    requires forall i :: 0 <= i < |middle| ==> ' ' !in middle[i]
    ensures GetInitialsAsWritten(Join([first] + middle + [last])) == Text(GetInitials(Join([first] + middle + [last])))
  {
    var parts := [first] + middle + [last];
    FullNameSplit(first, middle, last);
    AgreesOnParts(Join(parts), parts);
  }

  /** A name whose first and last parts are non-empty gets the same
      initials from the code and from the correction. */
  lemma AgreesOnParts(name: string, parts: seq<string>)
    requires Split(name) == parts && |parts| >= 2 && parts[0] != [] && parts[|parts| - 1] != []
    ensures GetInitialsAsWritten(name) == Text(GetInitials(name))
  {
    WordsEnds(parts);
    CorrectedOfWords(name, Words(parts));
    AsWrittenOfParts(name, parts);
  }

  /** The first and last words of parts whose first and last are non-empty. */
  lemma {:induction false} WordsEnds(parts: seq<string>)
    requires |parts| >= 2 && parts[0] != [] && parts[|parts| - 1] != []
    ensures |Words(parts)| >= 2
    ensures Words(parts)[0] == parts[0] && Words(parts)[|Words(parts)| - 1] == parts[|parts| - 1]
  {
    WordsLast(parts[1..]);
  }

  lemma {:induction false} WordsLast(parts: seq<string>)
    requires |parts| >= 1 && parts[|parts| - 1] != []
    ensures |Words(parts)| >= 1 && Words(parts)[|Words(parts)| - 1] == parts[|parts| - 1]
  {
    if |parts| > 1 {
      WordsLast(parts[1..]);
    }
  }

  /** A trailing space does not change the corrected initials: "Alice "
      gives "Al", as "Alice" does. */
  lemma TrailingSpaceCorrected(word: string)
    requires word != [] && ' ' !in word
    ensures GetInitials(word + " ") == GetInitials(word) == word[..Min(2, |word|)]
  {
    SplitAfterWord(word, "");
    assert word + " " + "" == word + " ";
    SplitWord(word);
    assert Words([""]) == [];
    assert Words([word, ""]) == [word] + Words([""]);
  }
}
