/**
 * The recent-search history of the home page: a list of past search terms,
 * most recent first, that a successful non-empty search updates by moving its
 * term to the front. The list is not truncated. Terms are compared exactly
 * (no trimming, no case folding), as JavaScript's `!==` compares strings.
 *
 * Also the guard that decides whether a search is issued at all: the input
 * box's value must not trim to the empty string.
 */
module SearchHistory {
  import opened Wrappers

  /** `history.filter(result => result !== term)`. */
  function RemoveAll(history: seq<string>, term: string): (r: seq<string>)
    ensures |r| <= |history|
    ensures forall x :: x in r <==> x in history && x != term
  {
    if history == [] then []
    else if history[0] == term then RemoveAll(history[1..], term)
    else [history[0]] + RemoveAll(history[1..], term)
  }

  /** The history update made when a search completes: `term` is the input
      box's value at that moment and `resultsNonEmpty` says whether the result's
      `drinks` is non-empty. A recorded term ends up at the front; nothing new
      other than the term can appear, and the history grows by at most one. */
  function Record(history: seq<string>, term: string, resultsNonEmpty: bool): (r: seq<string>)
    ensures |r| <= |history| + 1
    ensures forall x :: x in r <==> x in history || (x == term && term != "" && resultsNonEmpty)
  {
    if term != "" && resultsNonEmpty then [term] + RemoveAll(history, term) else history
  }

  predicate Distinct(s: seq<string>) {
    forall i, j :: 0 <= i < j < |s| ==> s[i] != s[j]
  }

  // ---------------------------------------------------------------------------
  // The filter

  lemma {:induction false} RemoveAllAbsent(history: seq<string>, term: string)
    requires term !in history
    ensures RemoveAll(history, term) == history
  {
    if history != [] {
      assert history[0] != term;
      assert term !in history[1..];
      RemoveAllAbsent(history[1..], term);
      assert history == [history[0]] + history[1..];
    }
  }

  /** The filter drops every copy of the term and keeps every copy of any other. */
  lemma {:induction false} RemoveAllCount(history: seq<string>, term: string, x: string)
    ensures multiset(RemoveAll(history, term))[x] == if x == term then 0 else multiset(history)[x]
  {
    if history != [] {
      RemoveAllCount(history[1..], term, x);
      assert history == [history[0]] + history[1..];
      assert multiset(history) == multiset([history[0]]) + multiset(history[1..]);
      if history[0] != term {
        var r := RemoveAll(history[1..], term);
        assert multiset([history[0]] + r) == multiset([history[0]]) + multiset(r);
      }
    }
  }

  lemma {:induction false} RemoveAllKeepsDistinct(history: seq<string>, term: string)
    requires Distinct(history)
    ensures Distinct(RemoveAll(history, term))
  {
    if history != [] {
      var tail := history[1..];
      assert Distinct(tail) by {
        forall a, b | 0 <= a < b < |tail|
          ensures tail[a] != tail[b]
        {
          assert tail[a] == history[a + 1] && tail[b] == history[b + 1];
        }
      }
      RemoveAllKeepsDistinct(tail, term);
      if history[0] != term {
        var r := RemoveAll(tail, term);
        assert history[0] !in tail by {
          forall k | 0 <= k < |tail|
            ensures tail[k] != history[0]
          {
            assert tail[k] == history[k + 1];
          }
        }
        assert history[0] !in r;
        var r' := [history[0]] + r;
        forall a, b | 0 <= a < b < |r'|
          ensures r'[a] != r'[b]
        {
          assert r'[b] == r[b - 1];
          if a > 0 {
            assert r'[a] == r[a - 1];
          }
        }
      }
    }
  }

  /** On a duplicate-free history, the filter removes one entry if the term is
      there and none if it is not. */
  lemma {:induction false} RemoveAllLength(history: seq<string>, term: string)
    requires Distinct(history)
    ensures |RemoveAll(history, term)| == if term in history then |history| - 1 else |history|
  {
    if history != [] {
      var tail := history[1..];
      assert Distinct(tail) by {
        forall a, b | 0 <= a < b < |tail|
          ensures tail[a] != tail[b]
        {
          assert tail[a] == history[a + 1] && tail[b] == history[b + 1];
        }
      }
      if history[0] == term {
        assert term !in tail by {
          forall k | 0 <= k < |tail|
            ensures tail[k] != term
          {
            assert tail[k] == history[k + 1];
          }
        }
        RemoveAllAbsent(tail, term);
      } else {
        RemoveAllLength(tail, term);
        assert term in history <==> term in tail by {
          assert history == [history[0]] + tail;
        }
      }
    }
  }

  // ---------------------------------------------------------------------------
  // Recording a search

  /** After a recording update the term is first, and occurs exactly once; every
      other term occurs as often as before (nothing else is added or removed). */
  lemma RecordMovesToFront(history: seq<string>, term: string)
    requires term != ""
    ensures |Record(history, term, true)| > 0 && Record(history, term, true)[0] == term
    ensures multiset(Record(history, term, true))[term] == 1
    ensures forall x :: x != term ==> multiset(Record(history, term, true))[x] == multiset(history)[x]
  {
    var rest := RemoveAll(history, term);
    assert multiset([term] + rest) == multiset([term]) + multiset(rest);
    RemoveAllCount(history, term, term);
    forall x | x != term
      ensures multiset(Record(history, term, true))[x] == multiset(history)[x]
    {
      RemoveAllCount(history, term, x);
    }
  }

  /** The other terms keep their relative order: erasing the term from the
      history before and after the update gives the same sequence. */
  lemma RecordKeepsOrder(history: seq<string>, term: string, resultsNonEmpty: bool)
    ensures RemoveAll(Record(history, term, resultsNonEmpty), term) == RemoveAll(history, term)
  {
    if term != "" && resultsNonEmpty {
      var rest := RemoveAll(history, term);
      assert ([term] + rest)[1..] == rest;
      RemoveAllAbsent(rest, term);
    }
  }

  /** Recording the same term twice in a row is the same as recording it once. */
  lemma RecordIdempotent(history: seq<string>, term: string, resultsNonEmpty: bool)
    ensures Record(Record(history, term, resultsNonEmpty), term, resultsNonEmpty)
         == Record(history, term, resultsNonEmpty)
  {
    RecordKeepsOrder(history, term, resultsNonEmpty);
  }

  /** The update leaves the history as it was exactly when the search is not
      recorded (no results, or an empty input box) or the term is already the
      only copy at the front. */
  lemma RecordUnchangedIff(history: seq<string>, term: string, resultsNonEmpty: bool)
    ensures Record(history, term, resultsNonEmpty) == history
        <==> (!resultsNonEmpty || term == ""
              || (|history| > 0 && history[0] == term && term !in history[1..]))
  {
    if term != "" && resultsNonEmpty {
      var rest := RemoveAll(history, term);
      if |history| > 0 && history[0] == term && term !in history[1..] {
        RemoveAllAbsent(history[1..], term);
        assert history == [history[0]] + history[1..];
      }
      if [term] + rest == history {
        assert history[1..] == rest;
        assert term !in rest;
      }
    }
  }

  /** A duplicate-free history stays duplicate-free, and grows by one entry
      exactly when a new term is recorded. */
  lemma RecordKeepsDistinct(history: seq<string>, term: string, resultsNonEmpty: bool)
    requires Distinct(history)
    ensures Distinct(Record(history, term, resultsNonEmpty))
    ensures |Record(history, term, resultsNonEmpty)|
         == if term != "" && resultsNonEmpty && term !in history then |history| + 1 else |history|
  {
    if term != "" && resultsNonEmpty {
      var rest := RemoveAll(history, term);
      RemoveAllKeepsDistinct(history, term);
      RemoveAllLength(history, term);
      var r := [term] + rest;
      forall a, b | 0 <= a < b < |r|
        ensures r[a] != r[b]
      {
        assert r[b] == rest[b - 1];
        if a > 0 {
          assert r[a] == rest[a - 1];
        }
      }
    }
  }

  /** Searching "mojito", then "daiquiri", then "mojito" again. */
  lemma MoveToFrontScenario()
    ensures Record(Record(Record([], "mojito", true), "daiquiri", true), "mojito", true)
         == ["mojito", "daiquiri"]
  {
    assert Record([], "mojito", true) == ["mojito"];
    assert RemoveAll(["mojito"], "daiquiri") == ["mojito"];
    assert Record(["mojito"], "daiquiri", true) == ["daiquiri", "mojito"];
    assert ["daiquiri", "mojito"][1..] == ["mojito"];
    assert RemoveAll(["daiquiri", "mojito"], "mojito") == ["daiquiri"];
  }

  // ---------------------------------------------------------------------------
  // Issuing a search

  /** The characters JavaScript's String.prototype.trim removes: the
      WhiteSpace and LineTerminator code points of ECMAScript. */
  predicate IsWhiteSpace(c: char) {
    || c == '\U{0009}' || c == '\U{000A}' || c == '\U{000B}' || c == '\U{000C}'
    || c == '\U{000D}' || c == '\U{0020}' || c == '\U{00A0}' || c == '\U{1680}'
    || ('\U{2000}' <= c <= '\U{200A}')
    || c == '\U{2028}' || c == '\U{2029}' || c == '\U{202F}' || c == '\U{205F}'
    || c == '\U{3000}' || c == '\U{FEFF}'
  }

  /** Drop leading white space. */
  function TrimStart(s: string): (r: string)
    ensures |r| <= |s| && r == s[|s| - |r|..]
    ensures r == "" || !IsWhiteSpace(r[0])
    ensures forall i :: 0 <= i < |s| - |r| ==> IsWhiteSpace(s[i])
  {
    if s != "" && IsWhiteSpace(s[0]) then TrimStart(s[1..]) else s
  }

  /** Drop trailing white space. */
  function TrimEnd(s: string): (r: string)
    ensures |r| <= |s| && r == s[..|r|]
    ensures r == "" || !IsWhiteSpace(r[|r| - 1])
    ensures forall i :: |r| <= i < |s| ==> IsWhiteSpace(s[i])
  {
    if s != "" && IsWhiteSpace(s[|s| - 1]) then TrimEnd(s[..|s| - 1]) else s
  }

  /** `r` is `s` with the `k` characters before it and everything after it
      dropped, and all of those are white space. */
  predicate TrimmedFrom(s: string, k: nat, r: string) {
    && k + |r| <= |s| && r == s[k..k + |r|]
    && (forall i :: 0 <= i < k ==> IsWhiteSpace(s[i]))
    && (forall i :: k + |r| <= i < |s| ==> IsWhiteSpace(s[i]))
  }

  /** `String.prototype.trim`: the input with its leading and trailing white
      space dropped. */
  function Trim(s: string): (r: string)
    ensures |r| <= |s|
    ensures r == "" || (!IsWhiteSpace(r[0]) && !IsWhiteSpace(r[|r| - 1]))
    ensures TrimmedFrom(s, |s| - |TrimStart(s)|, r)
  {
    var front := TrimStart(s);
    var r := TrimEnd(front);
    PrefixOfSuffix(s, front, r);
    r
  }

  /** A prefix `r` of a suffix `front` of `s`, with white space before `front`
      and after `r` in it, is what trimming leaves of `s`. */
  lemma PrefixOfSuffix(s: string, front: string, r: string)
    requires |front| <= |s| && front == s[|s| - |front|..]
    requires forall i :: 0 <= i < |s| - |front| ==> IsWhiteSpace(s[i])
    requires |r| <= |front| && r == front[..|r|]
    requires forall i :: |r| <= i < |front| ==> IsWhiteSpace(front[i])
    ensures r == "" || r[0] == front[0]
    ensures TrimmedFrom(s, |s| - |front|, r)
  {
    var k := |s| - |front|;
    forall i | k + |r| <= i < |s|
      ensures IsWhiteSpace(s[i])
    {
      assert s[i] == front[i - k];
    }
  }

  /** handleSearch's guard: a search is issued only for an input that does not
      trim to the empty string. */
  predicate ShouldSearch(input: string) {
    Trim(input) != ""
  }

  /** A search is issued exactly when the input has a character that is not
      white space. */
  lemma ShouldSearchIff(input: string)
    ensures ShouldSearch(input) <==> exists i :: 0 <= i < |input| && !IsWhiteSpace(input[i])
  {
    var front := TrimStart(input);
    var core := TrimEnd(front);
    assert Trim(input) == core;
    var dropped := |input| - |front|;
    if i :| 0 <= i < |input| && !IsWhiteSpace(input[i]) {
      KeptCharacter(input, i);
    }
    if core != "" {
      assert core[0] == front[0];
      assert front[0] == input[dropped];
    }
  }

  /** A character that is not white space survives trimming. */
  lemma KeptCharacter(input: string, i: nat)
    requires i < |input| && !IsWhiteSpace(input[i])
    ensures Trim(input) != ""
  {
    var front := TrimStart(input);
    var dropped := |input| - |front|;
    assert i >= dropped;
    assert front[i - dropped] == input[i];
    var core := TrimEnd(front);
    assert i - dropped < |core|;
  }

  /** How a search is started: by typing `input` into the box (handleSearch,
      guarded by ShouldSearch), or by clicking the history entry at `index`
      (`mutation.mutate(res)`, with no guard). */
  datatype Search = Typed(input: string) | Replayed(index: nat)

  /** The term a search is issued for, or None when no search is issued. */
  function Issued(history: seq<string>, search: Search): (r: Option<string>)
    ensures search.Typed? ==> (r.Some? <==> ShouldSearch(search.input))
    ensures search.Replayed? ==> (r.Some? <==> search.index < |history|)
    ensures search.Typed? && r.Some? ==> r.value == search.input
    ensures search.Replayed? && r.Some? ==> r.value == history[search.index]
    ensures NoBlank(history) && r.Some? ==> ShouldSearch(r.value)
  {
    match search
    case Typed(input) => if ShouldSearch(input) then Some(input) else None
    case Replayed(index) => if index < |history| then Some(history[index]) else None
  }

  /** Every entry is a term a typed search could have been issued for. */
  predicate NoBlank(history: seq<string>) {
    forall i :: 0 <= i < |history| ==> ShouldSearch(history[i])
  }

  /** onSuccess as the code has it: when an issued search completes, the term
      recorded is `boxValue`, the box's contents at that moment, whatever term
      was searched. */
  function CompletedAsWritten(history: seq<string>, search: Search, boxValue: string,
                              resultsNonEmpty: bool): (r: seq<string>)
    ensures Issued(history, search).None? ==> r == history
    ensures forall x :: x in r <==> x in history
                                    || (x == boxValue && boxValue != "" && resultsNonEmpty
                                        && Issued(history, search).Some?)
  {
    if Issued(history, search).Some? then Record(history, boxValue, resultsNonEmpty) else history
  }

  /** The completion update as evidently intended: record the term that was
      searched. For a typed search the two agree, since the box is disabled
      while its search is pending. */
  function Completed(history: seq<string>, search: Search, resultsNonEmpty: bool): (r: seq<string>)
    ensures Issued(history, search).None? ==> r == history
    ensures forall x :: x in r <==> x in history
                                    || (resultsNonEmpty && Issued(history, search) == Some(x))
  {
    match Issued(history, search)
    case None => history
    case Some(term) =>
      ShouldSearchIff(term);
      Record(history, term, resultsNonEmpty)
  }

  /** A typed search whose box still holds the input when it completes is
      recorded the same way by the code and by the intended update. */
  lemma TypedAsWrittenAgrees(history: seq<string>, input: string, resultsNonEmpty: bool)
    ensures CompletedAsWritten(history, Typed(input), input, resultsNonEmpty)
         == Completed(history, Typed(input), resultsNonEmpty)
  {
    if ShouldSearch(input) {
      ShouldSearchIff(input);
    }
  }

  /** The code as written: a history button records the box's contents. After
      a refused blank search the box still holds "   ", and clicking "mojito"
      puts that blank entry, which no typed search could add, in front. After
      a successful search has cleared the box, clicking an entry records "", so
      the clicked term is not moved to the front. */
  lemma ReplayRecordsBox()
    ensures !ShouldSearch("   ") && NoBlank(["mojito"])
    ensures CompletedAsWritten(["mojito"], Replayed(0), "   ", true) == ["   ", "mojito"]
    ensures !NoBlank(CompletedAsWritten(["mojito"], Replayed(0), "   ", true))
    ensures CompletedAsWritten(["daiquiri", "mojito"], Replayed(1), "", true) == ["daiquiri", "mojito"]
  {
    ShouldSearchIff("   ");
    ShouldSearchIff("mojito");
    assert !IsWhiteSpace("mojito"[0]);
    assert RemoveAll(["mojito"], "   ") == ["mojito"];
    var r := CompletedAsWritten(["mojito"], Replayed(0), "   ", true);
    assert r[0] == "   ";
  }

  /** The intended update: clicking an entry moves it to the front. */
  lemma ReplayMovesToFront()
    ensures Completed(["daiquiri", "mojito"], Replayed(1), true) == ["mojito", "daiquiri"]
  {
    ShouldSearchIff("mojito");
    assert !IsWhiteSpace("mojito"[0]);
    assert ["daiquiri", "mojito"][1..] == ["mojito"];
    assert RemoveAll(["daiquiri", "mojito"], "mojito") == ["daiquiri"];
  }

  /** With the intended update, a blank typed input leaves the history alone,
      and a history with no blank entries never gains one, whether the search
      is typed or started from a history button. */
  lemma CompletedKeepsNoBlank(history: seq<string>, search: Search, resultsNonEmpty: bool)
    requires NoBlank(history)
    ensures search.Typed? && !ShouldSearch(search.input) ==> Completed(history, search, resultsNonEmpty) == history
    ensures NoBlank(Completed(history, search, resultsNonEmpty))
  {
    var r := Completed(history, search, resultsNonEmpty);
    forall i | 0 <= i < |r|
      ensures ShouldSearch(r[i])
    {
      assert r[i] in r;
      if r[i] in history {
        var k :| 0 <= k < |history| && history[k] == r[i];
      }
    }
  }
}
