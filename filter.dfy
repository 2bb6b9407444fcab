/** The ignore filter of the worker: cards whose names mark them as dividers or
    placeholders take no part in change detection or in the counts. */
module Filter {
  import opened Wrappers
  import opened JsString

  /** Cards whose names contain one of these, in any letter case, are ignored. */
  const IgnoredKeywords: seq<string> := ["Out of Office", "Training", "Innovation", "Divider", "Analyst"]

  /** Some keyword of `keywords`, lower-cased, occurs in `clean`: the `some`
      over the keyword list, each tested with `includes`. */
  function SomeKeywordIn(clean: string, keywords: seq<string>): bool {
    |keywords| > 0 && (Includes(clean, Lower(keywords[0])) || SomeKeywordIn(clean, keywords[1..]))
  }

  /** The `some` holds exactly when some keyword, lower-cased, occurs in `clean`. */
  lemma {:induction false} SomeKeywordInSpec(clean: string, keywords: seq<string>)
    ensures SomeKeywordIn(clean, keywords) <==> exists k :: k in keywords && IsSubstring(Lower(k), clean)
  {
    if |keywords| > 0 {
      IncludesSpec(clean, Lower(keywords[0]));
      SomeKeywordInSpec(clean, keywords[1..]);
      assert keywords == [keywords[0]] + keywords[1..];
    }
  }

  /** `shouldIgnore(cardName)`: a missing or empty name is ignored; any other name
      is ignored exactly when its trimmed, lower-cased form contains a
      lower-cased keyword. */
  function ShouldIgnore(cardName: Option<string>): (r: bool)
    ensures cardName.None? ==> r
  {
    match cardName
    case None => true
    case Some(name) => name == [] || SomeKeywordIn(Lower(Trim(name)), IgnoredKeywords)
  }

  /** A present name is ignored exactly when it is empty or its trimmed,
      lower-cased form contains some lower-cased keyword. */
  lemma IgnoredIffTrimmedContains(name: string)
    ensures ShouldIgnore(Some(name)) <==>
      name == [] || exists k :: k in IgnoredKeywords && IsSubstring(Lower(k), Lower(Trim(name)))
  {
    SomeKeywordInSpec(Lower(Trim(name)), IgnoredKeywords);
  }

  /** The keywords as they are compared. */
  lemma LoweredKeywords()
    ensures Lower(IgnoredKeywords[0]) == "out of office"
    ensures Lower(IgnoredKeywords[1]) == "training"
    ensures Lower(IgnoredKeywords[2]) == "innovation"
    ensures Lower(IgnoredKeywords[3]) == "divider"
    ensures Lower(IgnoredKeywords[4]) == "analyst"
  {
  }

  /** No lower-cased keyword is empty, and none starts or ends with whitespace. */
  lemma KeywordsHaveSolidEnds(k: string)
    requires k in IgnoredKeywords
    ensures |Lower(k)| > 0 && !IsWhitespace(Lower(k)[0]) && !IsWhitespace(Lower(k)[|Lower(k)| - 1])
  {
    LoweredKeywords();
  }

  /** An occurrence in the trimmed name is an occurrence in the whole name. */
  lemma {:induction false} TrimmedOccurrenceInName(name: string, key: string)
    requires IsSubstring(key, Lower(Trim(name)))
    ensures IsSubstring(key, Lower(name))
  {
    TrimSpec(name);
    var a := TrimOffset(name);
    var b := a + |Trim(name)|;
    LowerSlice(name, a, b);
    SubstringOfSlice(key, Lower(name), a, b);
  }

  /** An occurrence in the whole name of a string that neither starts nor ends
      with whitespace is an occurrence in the trimmed name. */
  lemma {:induction false} NameOccurrenceInTrimmed(name: string, key: string)
    requires |key| > 0 && !IsWhitespace(key[0]) && !IsWhitespace(key[|key| - 1])
    requires IsSubstring(key, Lower(name))
    ensures IsSubstring(key, Lower(Trim(name)))
  {
    var low := Lower(name);
    var i :| 0 <= i <= |low| && key <= low[i..];
    var j := i + |key| - 1;
    assert low[i] == key[0] && low[j] == key[|key| - 1];
    SolidCharKept(name, i);
    SolidCharKept(name, j);
    OccurrenceInTrimmed(name, key, i);
  }

  /** Trimming makes no difference to the filter except for the empty name: a
      non-empty name is ignored exactly when its lower-cased form contains some
      lower-cased keyword anywhere, since no keyword begins or ends with
      whitespace. */
  lemma {:induction false} IgnoredIffNameContains(name: string)
    ensures ShouldIgnore(Some(name)) <==>
      name == [] || exists k :: k in IgnoredKeywords && IsSubstring(Lower(k), Lower(name))
  {
    if name != [] {
      IgnoredIffTrimmedContains(name);
      if ShouldIgnore(Some(name)) {
        var k :| k in IgnoredKeywords && IsSubstring(Lower(k), Lower(Trim(name)));
        TrimmedOccurrenceInName(name, Lower(k));
      }
      if exists k :: k in IgnoredKeywords && IsSubstring(Lower(k), Lower(name)) {
        var k :| k in IgnoredKeywords && IsSubstring(Lower(k), Lower(name));
        KeywordsHaveSolidEnds(k);
        NameOccurrenceInTrimmed(name, Lower(k));
      }
    }
  }

  /** The filter is case-insensitive: names that lower-case alike are treated alike. */
  lemma CaseInsensitive(name: string, other: string)
    requires Lower(name) == Lower(other)
    ensures ShouldIgnore(Some(name)) == ShouldIgnore(Some(other))
  {
    IgnoredIffNameContains(name);
    IgnoredIffNameContains(other);
  }

  /** A name that holds a keyword in any letter case, anywhere, is ignored. */
  lemma KeywordAnywhereIsIgnored(name: string, k: string, i: nat)
    requires k in IgnoredKeywords
    requires i <= |name| && Lower(k) <= Lower(name)[i..]
    ensures ShouldIgnore(Some(name))
  {
    IgnoredIffNameContains(name);
  }

  /** A name made only of whitespace is NOT ignored: it is not empty, and once
      trimmed it contains no keyword. */
  lemma BlankNameIsKept(name: string)
    requires name != []
    requires forall i :: 0 <= i < |name| ==> IsWhitespace(name[i])
    ensures !ShouldIgnore(Some(name))
  {
    TrimSpec(name);
    assert Trim(name) == [];
    IgnoredIffTrimmedContains(name);
    forall k | k in IgnoredKeywords
      ensures !IsSubstring(Lower(k), Lower(Trim(name)))
    {
      KeywordsHaveSolidEnds(k);
    }
  }
}
