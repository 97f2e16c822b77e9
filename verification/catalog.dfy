/** The program catalog of backend/main.py: where `load_programs` takes the
    records from, and the difficulty filter of `GET /programs`. A file read is
    given as its outcome; the JSON parser itself is not modelled. */
module Catalog {
  import opened Wrappers
  import opened Text
  import opened Models

  /** What reading and parsing one JSON file yields. A read that fails with an
      I/O error is `Unparseable`, like a JSON syntax error. */
  datatype ReadOutcome = Missing | Unparseable | Parsed(records: seq<Program>)

  /** The primary file is used only when it parses to a non-empty list. */
  predicate IsUsablePrimary(primary: ReadOutcome) {
    primary.Parsed? && |primary.records| > 0
  }

  /** The two records served when neither file can be used. */
  const FallbackCatalog: seq<Program> := [
    Program(
      id := 1,
      name := "Google Summer of Code (GSoC)",
      slug := "gsoc",
      difficulty := "intermediate",
      programType := "Internship",
      timeline := "Applications Feb\U{2013}Apr, coding May\U{2013}Aug (varies by year)",
      opensIn := "March",
      deadline := "April 2, 2025",
      description := "Work with open source organizations on a 3-month programming project during your summer break.",
      officialSite := "https://summerofcode.withgoogle.com/",
      tags := ["Paid", "Remote", "Global"]
    ),
    Program(
      id := 4,
      name := "Hacktoberfest",
      slug := "hacktoberfest",
      difficulty := "intermediate",
      programType := "Open Source",
      timeline := "October 1\U{2013}31 every year",
      opensIn := "October",
      deadline := "October 31",
      description := "Month-long celebration of open source focused on submitting pull requests to participating repositories.",
      officialSite := "https://hacktoberfest.com/",
      tags := ["Remote", "Global"]
    )
  ]

  /** `load_programs`: the primary file if it parses to a non-empty list, else
      the frontend cache if it parses (even to an empty list), else the
      built-in fallback. */
  function LoadPrograms(primary: ReadOutcome, cache: ReadOutcome): (r: seq<Program>)
    ensures IsUsablePrimary(primary) ==> r == primary.records
    ensures !IsUsablePrimary(primary) && cache.Parsed? ==> r == cache.records
    ensures !IsUsablePrimary(primary) && !cache.Parsed? ==> r == FallbackCatalog
  {
    if IsUsablePrimary(primary) then primary.records
    else if cache.Parsed? then cache.records
    else FallbackCatalog
  }

  /** A usable primary file decides the catalog on its own: the cache is never
      consulted. */
  lemma PrimaryShadowsCache(primary: ReadOutcome, cache1: ReadOutcome, cache2: ReadOutcome)
    requires IsUsablePrimary(primary)
    ensures LoadPrograms(primary, cache1) == LoadPrograms(primary, cache2) == primary.records
  {
  }

  /** The loaded catalog is empty exactly when the primary file is unusable and
      the cache parses to an empty list; the built-in fallback is never empty. */
  lemma LoadedEmptyOnlyFromCache(primary: ReadOutcome, cache: ReadOutcome)
    ensures |LoadPrograms(primary, cache)| == 0
            <==> !IsUsablePrimary(primary) && cache == Parsed([])
  {
  }

  /** With neither file usable, the catalog is the two built-in records, ids 1
      and 4, both of difficulty "intermediate". */
  lemma NoFilesGiveFallback(primary: ReadOutcome, cache: ReadOutcome)
    requires !IsUsablePrimary(primary) && !cache.Parsed?
    ensures var c := LoadPrograms(primary, cache);
            && |c| == 2
            && c[0].id == 1 && c[0].name == "Google Summer of Code (GSoC)"
            && c[1].id == 4 && c[1].name == "Hacktoberfest"
            && c[0].difficulty == c[1].difficulty == "intermediate"
  {
  }

  /** `a` can be obtained from `b` by deleting elements, keeping the order of
      the rest. */
  predicate IsSubsequence<T(==)>(a: seq<T>, b: seq<T>)
    decreases |b|
  {
    if |a| == 0 then true
    else if |b| == 0 then false
    else if a[0] == b[0] then IsSubsequence(a[1..], b[1..])
    else IsSubsequence(a, b[1..])
  }

  /** The records of `c` whose stored difficulty is exactly `key`, in catalog
      order, each kept as many times as it occurs. */
  function WithDifficulty(c: seq<Program>, key: string): (r: seq<Program>)
    ensures |r| <= |c|
    ensures forall p :: p in r <==> p in c && p.difficulty == key
    ensures IsSubsequence(r, c)
    decreases |c|
  {
    if |c| == 0 then []
    else
      var rest := WithDifficulty(c[1..], key);
      assert forall p :: p in c <==> p == c[0] || p in c[1..];
      if c[0].difficulty == key then [c[0]] + rest
      else
        assert |rest| > 0 ==> rest[0] in rest && rest[0] != c[0];
        rest
  }

  /** The filter distributes over concatenation: each part is filtered on its
      own and the results are kept in order. */
  lemma {:induction false} WithDifficultyAppend(a: seq<Program>, b: seq<Program>, key: string)
    ensures WithDifficulty(a + b, key) == WithDifficulty(a, key) + WithDifficulty(b, key)
    decreases |a|
  {
    if |a| > 0 {
      assert (a + b)[1..] == a[1..] + b;
      assert (a + b)[0] == a[0];
      WithDifficultyAppend(a[1..], b, key);
    } else {
      assert a + b == b;
    }
  }

  /** The filter keeps the whole catalog exactly when every record matches, and
      keeps as many records as the catalog has only in that case. */
  lemma {:induction false} WithDifficultyKeepsAll(c: seq<Program>, key: string)
    ensures WithDifficulty(c, key) == c <==> forall i :: 0 <= i < |c| ==> c[i].difficulty == key
    ensures |WithDifficulty(c, key)| == |c| <==> WithDifficulty(c, key) == c
    decreases |c|
  {
    if |c| > 0 {
      WithDifficultyKeepsAll(c[1..], key);
      assert c == [c[0]] + c[1..];
      if WithDifficulty(c, key) == c {
        forall i | 0 <= i < |c| ensures c[i].difficulty == key {
          assert c[i] in WithDifficulty(c, key);
        }
      }
    }
  }

  /** The filter keeps every matching record as many times as the catalog
      holds it, and drops every other record. */
  lemma {:induction false} WithDifficultyCounts(c: seq<Program>, key: string, p: Program)
    ensures multiset(WithDifficulty(c, key))[p] == if p.difficulty == key then multiset(c)[p] else 0
    decreases |c|
  {
    if |c| > 0 {
      WithDifficultyCounts(c[1..], key, p);
      assert c == [c[0]] + c[1..];
      assert multiset(c) == multiset([c[0]]) + multiset(c[1..]);
      if c[0].difficulty == key {
        assert WithDifficulty(c, key) == [c[0]] + WithDifficulty(c[1..], key);
      }
    }
  }

  /** Filtering twice by the same key filters once. */
  lemma WithDifficultyIdempotent(c: seq<Program>, key: string)
    ensures WithDifficulty(WithDifficulty(c, key), key) == WithDifficulty(c, key)
  {
  }

  /** Python truthiness of the optional query string: `None` and `""` are false. */
  predicate IsFalsy(filter: Option<string>) {
    filter.None? || filter.value == ""
  }

  /** The filter of `GET /programs` and of `suggested_programs`: a falsy filter
      keeps everything; otherwise the query is lower-cased and compared exactly
      with each stored difficulty, which is not lower-cased. */
  function DifficultyFilter(c: seq<Program>, filter: Option<string>): (r: seq<Program>)
    ensures IsFalsy(filter) ==> r == c
    ensures !IsFalsy(filter) ==>
              forall p :: p in r <==> p in c && p.difficulty == Lower(filter.value)
    ensures !IsFalsy(filter) ==>
              forall p :: multiset(r)[p] == if p.difficulty == Lower(filter.value) then multiset(c)[p] else 0
    ensures IsSubsequence(r, c) && |r| <= |c|
  {
    if IsFalsy(filter) then
      assert IsSubsequence(c, c) by { SubsequenceRefl(c); }
      c
    else
      assert forall p :: multiset(WithDifficulty(c, Lower(filter.value)))[p]
                         == if p.difficulty == Lower(filter.value) then multiset(c)[p] else 0 by {
        forall p { WithDifficultyCounts(c, Lower(filter.value), p); }
      }
      WithDifficulty(c, Lower(filter.value))
  }

  lemma {:induction false} SubsequenceRefl<T>(c: seq<T>)
    ensures IsSubsequence(c, c)
    decreases |c|
  {
    if |c| > 0 {
      SubsequenceRefl(c[1..]);
    }
  }

  /** A stored difficulty holding an upper-case letter (such as "Beginner") is
      never matched by a non-empty filter, whatever its spelling. */
  lemma StoredUpperCaseNeverMatches(c: seq<Program>, d: string, p: Program, i: nat)
    requires d != ""
    requires i < |p.difficulty| && IsUpper(p.difficulty[i])
    ensures p !in DifficultyFilter(c, Some(d))
  {
  }

  /** The response of `GET /programs?difficulty=...` for the given file
      outcomes. */
  function GetPrograms(primary: ReadOutcome, cache: ReadOutcome, difficulty: Option<string>): (r: seq<Program>)
    ensures IsSubsequence(r, LoadPrograms(primary, cache))
    ensures IsFalsy(difficulty) ==> r == LoadPrograms(primary, cache)
    ensures !IsFalsy(difficulty) ==>
              forall p :: p in r <==> p in LoadPrograms(primary, cache) && p.difficulty == Lower(difficulty.value)
    ensures !IsFalsy(difficulty) ==>
              forall p :: multiset(r)[p]
                == if p.difficulty == Lower(difficulty.value) then multiset(LoadPrograms(primary, cache))[p] else 0
  {
    DifficultyFilter(LoadPrograms(primary, cache), difficulty)
  }

  /** A primary file holding one record, filtered by that record's own
      difficulty, gives back exactly that record if and only if the stored
      difficulty is empty or already lower-case. */
  lemma OwnDifficultyRoundTrip(p: Program, cache: ReadOutcome)
    ensures GetPrograms(Parsed([p]), cache, Some(p.difficulty)) == [p]
            <==> p.difficulty == "" || Lower(p.difficulty) == p.difficulty
  {
  }

  /** The built-in fallback answers a query for "INTERMEDIATE" with both its
      records and a query for "beginner" with none. */
  lemma FallbackFiltered()
    ensures DifficultyFilter(FallbackCatalog, Some("INTERMEDIATE")) == FallbackCatalog
    ensures DifficultyFilter(FallbackCatalog, Some("beginner")) == []
  {
    assert Lower("INTERMEDIATE") == "intermediate";
    WithDifficultyKeepsAll(FallbackCatalog, "intermediate");
    assert Lower("beginner") == "beginner";
    assert WithDifficulty(FallbackCatalog, "beginner") == [];
  }
}
