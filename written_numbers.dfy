/** `wordToNumber` and `convertWrittenNumberToDigit`: English number words
    from zero to ninety-nine, as the AI sometimes writes its metrics. */
module WrittenNumbers {
  import opened Wrappers
  import opened Text

  /** The words `wordToNumber` knows, with their values, in the order its
      table lists them. */
  const NumberTable: seq<(string, nat)> := [
    ("zero", 0), ("one", 1), ("two", 2), ("three", 3), ("four", 4),
    ("five", 5), ("six", 6), ("seven", 7), ("eight", 8), ("nine", 9),
    ("ten", 10), ("eleven", 11), ("twelve", 12), ("thirteen", 13), ("fourteen", 14),
    ("fifteen", 15), ("sixteen", 16), ("seventeen", 17), ("eighteen", 18), ("nineteen", 19),
    ("twenty", 20), ("thirty", 30), ("forty", 40), ("fifty", 50),
    ("sixty", 60), ("seventy", 70), ("eighty", 80), ("ninety", 90)]

  /** The value listed for `w`; None when it is not listed. */
  function LookupWord(table: seq<(string, nat)>, w: string): Option<nat> {
    if table == [] then None else if table[0].0 == w then Some(table[0].1) else LookupWord(table[1..], w)
  }

  /** A found value is listed for the word. */
  lemma {:induction false} LookupListed(table: seq<(string, nat)>, w: string)
    ensures LookupWord(table, w).Some? ==>
      exists k :: 0 <= k < |table| && table[k].0 == w && table[k].1 == LookupWord(table, w).value
  {
    if table != [] && table[0].0 != w {
      LookupListed(table[1..], w);
      if LookupWord(table, w).Some? {
        var k :| 0 <= k < |table[1..]| && table[1..][k].0 == w && table[1..][k].1 == LookupWord(table, w).value;
        assert table[k + 1] == table[1..][k];
      }
    }
  }

  /** The first entry listed for a word gives its value. */
  lemma {:induction false} LookupFirst(table: seq<(string, nat)>, k: nat, w: string)
    requires k < |table| && table[k].0 == w
    requires forall j :: 0 <= j < k ==> table[j].0 != w
    ensures LookupWord(table, w) == Some(table[k].1)
  {
    if k > 0 {
      assert table[0].0 != w;
      LookupFirst(table[1..], k - 1, w);
    }
  }

  /** Lower-case letters only. */
  predicate Plain(w: string) {
    w != [] && forall i :: 0 <= i < |w| ==> 'a' <= w[i] <= 'z'
  }

  /** A value found in a table is at most the table's largest value. */
  lemma {:induction false} LookupBound(table: seq<(string, nat)>, w: string, m: nat)
    requires forall k :: 0 <= k < |table| ==> table[k].1 <= m
    ensures LookupWord(table, w).Some? ==> LookupWord(table, w).value <= m
  {
    if table != [] && table[0].0 != w {
      LookupBound(table[1..], w, m);
    }
  }

  /** Every listed word is a non-empty run of lower-case letters. */
  lemma TableWords()
    ensures forall k :: 0 <= k < |NumberTable| ==> Plain(NumberTable[k].0)
  {
  }

  /** `wordToNumber(word)`; None stands for NaN. */
  function WordToNumber(word: string): (r: Option<nat>)
    ensures r.Some? ==> r.value <= 90
  {
    LookupBound(NumberTable, word, 90);
    LookupWord(NumberTable, word)
  }

  /** Every number word is a non-empty run of lower-case letters. */
  lemma NumberWordShape(w: string)
    requires WordToNumber(w).Some?
    ensures Plain(w)
  {
    LookupListed(NumberTable, w);
    TableWords();
  }

  /** The sum of two looked-up words, when both are known and the second
      is below 10. */
  function WordSum(first: Option<nat>, second: Option<nat>): (r: Option<nat>)
    ensures first.Some? && first.value <= 90 && r.Some? ==> r.value <= 99
  {
    if first.Some? && second.Some? && second.value < 10 then Some(first.value + second.value) else None
  }

  /** The value of a two-part hyphenated word. */
  function HyphenSum(t: string): (r: Option<nat>)
    ensures r.Some? ==> r.value <= 99
  {
    var parts := Split(t, '-');
    if |parts| != 2 then None else WordSum(WordToNumber(Trim(parts[0])), WordToNumber(Trim(parts[1])))
  }

  /** `convertWrittenNumberToDigit(text)`; a missing or empty text is NaN. */
  function ConvertWrittenNumber(text: Option<string>): (r: Option<nat>)
    ensures r.Some? ==> r.value <= 99
  {
    if text.None? || text.value == "" then None else ConvertLowered(Trim(Lower(text.value)))
  }

  /** The conversion of the lower-cased, trimmed text. */
  function ConvertLowered(t: string): (r: Option<nat>)
    ensures r.Some? ==> r.value <= 99
  {
    if '-' in t && HyphenSum(t).Some? then HyphenSum(t) else WordToNumber(t)
  }

  lemma TrimOfUnpadded(s: string)
    requires s == [] || (!IsJsSpace(s[0]) && !IsJsSpace(s[|s| - 1]))
    ensures Trim(s) == s
  {
  }

  /** A run of lower-case letters is its own lower case and trim, and holds
      no hyphen. */
  lemma PlainFacts(w: string)
    requires Plain(w)
    ensures Lower(w) == w && Trim(w) == w && '-' !in w
  {
    LowerIdentity(w);
    TrimOfUnpadded(w);
    assert forall i :: 0 <= i < |w| ==> w[i] != '-';
  }

  lemma SplitTwo(a: string, b: string)
    requires '-' !in a && '-' !in b
    ensures Split(a + "-" + b, '-') == [a, b]
  {
    assert Join([a, b], '-') == a + "-" + b;
    JoinSplitPieces([a, b], '-');
  }

  lemma LowerHyphenated(a: string, b: string)
    requires Lower(a) == a && Lower(b) == b
    ensures Lower(a + "-" + b) == a + "-" + b
  {
    LowerAppend(a, "-");
    LowerAppend(a + "-", b);
    assert Lower("-") == "-";
  }

  lemma TrimHyphenated(a: string, b: string)
    requires Plain(a) && Plain(b)
    ensures Trim(a + "-" + b) == a + "-" + b
  {
    var t := a + "-" + b;
    assert t[0] == a[0] && t[|t| - 1] == b[|b| - 1];
    TrimOfUnpadded(t);
  }

  /** Two runs of lower-case letters joined by a hyphen are their own lower
      case and trim. */
  lemma PlainHyphenated(a: string, b: string)
    requires Plain(a) && Plain(b)
    ensures Lower(a + "-" + b) == a + "-" + b && Trim(a + "-" + b) == a + "-" + b
  {
    PlainFacts(a);
    PlainFacts(b);
    LowerHyphenated(a, b);
    TrimHyphenated(a, b);
  }

  /** Such a text splits at its hyphen into the two words, which are looked
      up as they are. */
  lemma HyphenSumOf(a: string, b: string)
    requires Plain(a) && Plain(b)
    ensures '-' in a + "-" + b
    ensures HyphenSum(a + "-" + b) == WordSum(WordToNumber(a), WordToNumber(b))
  {
    PlainFacts(a);
    PlainFacts(b);
    SplitTwo(a, b);
    var t := a + "-" + b;
    assert t[|a|] == '-';
  }

  /** A number word converts to its value in any letter case. */
  lemma ConvertWord(w: string, shown: string)
    requires Plain(w) && Lower(shown) == w
    ensures ConvertWrittenNumber(Some(shown)) == WordToNumber(w)
  {
    PlainFacts(w);
    ConvertUnfolds(shown);
  }

  lemma ConvertUnfolds(s: string)
    requires s != ""
    ensures ConvertWrittenNumber(Some(s)) == ConvertLowered(Trim(Lower(s)))
  {
  }

  /** Converting a text that is already lower-case and trimmed skips both
      normalisations. */
  lemma ConvertNormalised(t: string)
    requires t != "" && Lower(t) == t && Trim(t) == t
    ensures ConvertWrittenNumber(Some(t)) == ConvertLowered(t)
  {
    ConvertUnfolds(t);
  }

  lemma HyphenNonEmpty(t: string)
    requires '-' in t
    ensures t != ""
  {
  }

  lemma LoweredHyphen(t: string)
    requires '-' in t && HyphenSum(t).Some?
    ensures ConvertLowered(t) == HyphenSum(t)
  {
  }

  /** A normalised text with a hyphen takes the hyphenated route: its
      hyphenated sum, or NaN when that sum is NaN. */
  lemma LoweredHyphenText(t: string)
    requires '-' in t
    ensures ConvertLowered(t) == HyphenSum(t)
  {
    if HyphenSum(t).Some? {
      LoweredHyphen(t);
    } else {
      HyphenNotWord(t);
    }
  }

  /** A text with a hyphen is never a single number word. */
  lemma HyphenNotWord(t: string)
    requires '-' in t
    ensures WordToNumber(t) == None
  {
    if WordToNumber(t).Some? {
      NumberWordShape(t);
      PlainFacts(t);
    }
  }
}

/** What the conversion gives for hyphenated and single number words. */
module WrittenNumberFacts {
  import opened Wrappers
  import opened Text
  import opened WrittenNumbers

  /** A lower-case, trimmed text with a hyphen converts to its hyphenated
      sum or to NaN. */
  lemma ConvertHyphenText(t: string)
    requires '-' in t && Lower(t) == t && Trim(t) == t
    ensures ConvertWrittenNumber(Some(t)) == HyphenSum(t)
  {
    HyphenNonEmpty(t);
    ConvertNormalised(t);
    LoweredHyphenText(t);
  }

  /** A two-part hyphenated text converts to the sum of its parts when both
      are number words and the second is below 10, and to NaN otherwise. */
  lemma ConvertHyphenated(a: string, b: string)
    requires Plain(a) && Plain(b)
    ensures ConvertWrittenNumber(Some(a + "-" + b)) == WordSum(WordToNumber(a), WordToNumber(b))
  {
    PlainHyphenated(a, b);
    HyphenSumOf(a, b);
    ConvertHyphenText(a + "-" + b);
  }

  /** Helpers of the two case lemmas below: the table entries they use. */
  lemma WordOne(w: string) requires w == "one" ensures WordToNumber(w) == Some(1) { LookupFirst(NumberTable, 1, w); }
  lemma WordFive(w: string) requires w == "five" ensures WordToNumber(w) == Some(5) { LookupFirst(NumberTable, 5, w); }
  lemma WordSeven(w: string) requires w == "seven" ensures WordToNumber(w) == Some(7) { LookupFirst(NumberTable, 7, w); }
  lemma WordTwenty(w: string) requires w == "twenty" ensures WordToNumber(w) == Some(20) { LookupFirst(NumberTable, 20, w); }
  lemma WordThirty(w: string) requires w == "thirty" ensures WordToNumber(w) == Some(30) { LookupFirst(NumberTable, 21, w); }
  lemma WordForty(w: string) requires w == "forty" ensures WordToNumber(w) == Some(40) { LookupFirst(NumberTable, 22, w); }

  /** The hyphenated cases a test of the conversion lists: by
      ConvertHyphenated, "forty-seven" converts to 47 and "twenty-one" to 21. */
  lemma HyphenatedCases(a: string, b: string)
    ensures a == "forty" && b == "seven" ==> WordSum(WordToNumber(a), WordToNumber(b)) == Some(47)
    ensures a == "twenty" && b == "one" ==> WordSum(WordToNumber(a), WordToNumber(b)) == Some(21)
  {
    if a == "forty" && b == "seven" {
      WordForty(a);
      WordSeven(b);
    } else if a == "twenty" && b == "one" {
      WordTwenty(a);
      WordOne(b);
    }
  }

  /** The single-word cases: "thirty" is 30 and "five" is 5, in any letter
      case. */
  lemma ConvertWordCases(t: string)
    ensures Lower(t) == "thirty" ==> ConvertWrittenNumber(Some(t)) == Some(30)
    ensures Lower(t) == "five" ==> ConvertWrittenNumber(Some(t)) == Some(5)
  {
    if Lower(t) == "thirty" {
      ConvertWord("thirty", t);
      WordThirty("thirty");
    } else if Lower(t) == "five" {
      ConvertWord("five", t);
      WordFive("five");
    }
  }
}
