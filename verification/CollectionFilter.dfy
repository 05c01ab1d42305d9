// The collection filter of a backup: expanding wildcard patterns, rewriting a list of
// wanted collections into exclusions, and what mongodump then dumps (internal/backup/engine.go,
// internal/backup/integrity.go). How a glob matches is a parameter.
module CollectionFilter {

  import opened Text

  /** A collection name that trimming leaves alone. */
  predicate Clean(n: string) { n != "" && Trim(n) == n }

  predicate IsSystem(n: string) { "system." <= n }

  /** models.IsCollectionPattern. */
  predicate IsPattern(n: string) { '*' in n || '?' in n }

  type Glob = (string, string) -> bool

  /** models.MatchCollectionPattern. */
  predicate Matches(g: Glob, pattern: string, name: string) { !IsSystem(name) && g(pattern, name) }

  /** The options of a backup that its collection filter depends on. */
  datatype Options = Options(collections: seq<string>, exclude: seq<string>, usersAndRoles: bool)

  /** The filter a backup ran with, as recorded. */
  datatype Applied = Applied(wanted: seq<string>, exclude: seq<string>)

  datatype Listing = NoLister | ListFails | Listed(names: seq<string>)

  datatype Result = Ok(opts: Options, applied: Applied) | CollectionFilterError

  function Add(out: seq<string>, n: string): seq<string> { if n in out then out else out + [n] }

  // ---- trimmedNames ----

  function TrimmedNames(names: seq<string>): seq<string> {
    if names == [] then []
    else
      var out, n := TrimmedNames(names[..|names| - 1]), Trim(names[|names| - 1]);
      if n == "" then out else Add(out, n)
  }

  method CollectTrimmed(names: seq<string>) returns (out: seq<string>)
    ensures out == TrimmedNames(names)
  {
    out := [];
    for i := 0 to |names|
      invariant out == TrimmedNames(names[..i])
    {
      assert names[..i + 1][..i] == names[..i];
      var n := Trim(names[i]);
      if n != "" && n !in out { out := out + [n]; }
    }
    assert names[..|names|] == names;
  }

  lemma {:induction false} TrimmedIn(names: seq<string>, n: string)
    ensures n in TrimmedNames(names) <==> n != "" && exists m :: m in names && Trim(m) == n
  {
    if names != [] {
      var init, last := names[..|names| - 1], names[|names| - 1];
      TrimmedIn(init, n);
      assert names == init + [last];
    }
  }

  lemma TrimmedClean(names: seq<string>, n: string)
    requires n in TrimmedNames(names)
    ensures Clean(n)
  {
    TrimmedIn(names, n);
    var m :| m in names && Trim(m) == n;
    TrimTwice(m);
  }

  lemma {:induction false} TrimRightKeeps(s: string, k: nat)
    requires 0 < k <= |s| && !IsSpace(s[k - 1])
    ensures |TrimRight(s)| >= k && TrimRight(s)[..k] == s[..k]
  {
    if IsSpace(s[|s| - 1]) {
      TrimRightKeeps(s[..|s| - 1], k);
      assert s[..|s| - 1][..k] == s[..k];
    }
  }

  /** A system collection stays one when its name is trimmed. */
  lemma TrimSystem(s: string)
    requires IsSystem(s)
    ensures IsSystem(Trim(s))
  {
    assert s[0] == 's' && s[6] == '.';
    assert TrimLeft(s) == s;
    TrimRightKeeps(s, 7);
    assert s[..7] == "system.";
  }

  // ---- expandPatterns ----

  /** The names a pattern adds, in the order of the listing. */
  function AddMatches(g: Glob, out: seq<string>, pattern: string, names: seq<string>): seq<string> {
    if names == [] then out
    else
      var before := AddMatches(g, out, pattern, names[..|names| - 1]);
      if Matches(g, pattern, names[|names| - 1]) then Add(before, names[|names| - 1]) else before
  }

  predicate MatchesSome(g: Glob, pattern: string, names: seq<string>) {
    exists i :: 0 <= i < |names| && Matches(g, pattern, names[i])
  }

  function Expand(g: Glob, filter: seq<string>, names: seq<string>): seq<string> {
    if filter == [] then []
    else
      var out, entry := Expand(g, filter[..|filter| - 1], names), filter[|filter| - 1];
      if IsPattern(entry) then AddMatches(g, out, entry, names) else Add(out, entry)
  }

  predicate AllMatch(g: Glob, filter: seq<string>, names: seq<string>) {
    forall i :: 0 <= i < |filter| && IsPattern(filter[i]) ==> MatchesSome(g, filter[i], names)
  }

  method ExpandPatterns(g: Glob, filter: seq<string>, names: seq<string>, mustMatch: bool) returns (ok: bool, out: seq<string>)
    ensures ok <==> !mustMatch || AllMatch(g, filter, names)
    ensures ok ==> out == Expand(g, filter, names)
  {
    out := [];
    for i := 0 to |filter|
      invariant out == Expand(g, filter[..i], names)
      invariant mustMatch ==> AllMatch(g, filter[..i], names)
    {
      assert filter[..i + 1][..i] == filter[..i];
      var entry := filter[i];
      if !IsPattern(entry) {
        out := Add(out, entry);
      } else {
        var matched;
        out, matched := AddAll(g, out, entry, names);
        if !matched && mustMatch { return false, []; }
      }
    }
    assert filter[..|filter|] == filter;
    return true, out;
  }

  method AddAll(g: Glob, start: seq<string>, pattern: string, names: seq<string>) returns (out: seq<string>, matched: bool)
    ensures out == AddMatches(g, start, pattern, names)
    ensures matched <==> MatchesSome(g, pattern, names)
  {
    out, matched := start, false;
    for j := 0 to |names|
      invariant out == AddMatches(g, start, pattern, names[..j])
      invariant matched <==> exists i :: 0 <= i < j && Matches(g, pattern, names[i])
    {
      assert names[..j + 1][..j] == names[..j];
      if Matches(g, pattern, names[j]) {
        out, matched := Add(out, names[j]), true;
      }
    }
    assert names[..|names|] == names;
  }

  /** An entry of a filter names n: literally, or as a pattern. */
  predicate Names(g: Glob, entry: string, n: string) { if IsPattern(entry) then Matches(g, entry, n) else entry == n }

  lemma {:induction false} AddMatchesIn(g: Glob, out: seq<string>, pattern: string, names: seq<string>, n: string)
    ensures n in AddMatches(g, out, pattern, names) <==> n in out || (n in names && Matches(g, pattern, n))
  {
    if names != [] {
      var init, last := names[..|names| - 1], names[|names| - 1];
      AddMatchesIn(g, out, pattern, init, n);
      assert names == init + [last];
    }
  }

  /** Expanding keeps what a filter means for the listed collections, and adds only listed ones. */
  lemma {:induction false} ExpandIn(g: Glob, filter: seq<string>, names: seq<string>, n: string)
    ensures n in names ==> (n in Expand(g, filter, names) <==> exists i :: 0 <= i < |filter| && Names(g, filter[i], n))
    ensures n in Expand(g, filter, names) ==> n in names || n in filter
  {
    if filter != [] {
      var init, last := filter[..|filter| - 1], filter[|filter| - 1];
      ExpandIn(g, init, names, n);
      AddMatchesIn(g, Expand(g, init, names), last, names, n);
      assert filter == init + [last];
      if n in names && Names(g, last, n) { assert Names(g, filter[|filter| - 1], n); }
    }
  }

  // ---- expandCollections ----

  predicate HasPattern(filter: seq<string>) { exists i :: 0 <= i < |filter| && IsPattern(filter[i]) }

  predicate Included(wanted: seq<string>, names: seq<string>) { forall i :: 0 <= i < |wanted| ==> wanted[i] in names }

  /** What a rewritten filter does not exclude on its own. */
  predicate Keep(wanted: seq<string>, name: string) {
    || name in wanted || name == "system.views"
    || ("system.buckets." <= name && name[|"system.buckets."|..] in wanted)
  }

  function AddExclusions(wanted: seq<string>, out: seq<string>, names: seq<string>): seq<string> {
    if names == [] then out
    else
      var before := AddExclusions(wanted, out, names[..|names| - 1]);
      if Keep(wanted, names[|names| - 1]) then before else Add(before, names[|names| - 1])
  }

  lemma {:induction false} AddExclusionsIn(wanted: seq<string>, out: seq<string>, names: seq<string>, n: string)
    ensures n in AddExclusions(wanted, out, names) <==> n in out || (n in names && !Keep(wanted, n))
  {
    if names != [] {
      var init, last := names[..|names| - 1], names[|names| - 1];
      AddExclusionsIn(wanted, out, init, n);
      assert names == init + [last];
    }
  }

  function Single(wanted: seq<string>, exclude: seq<string>, opts: Options): bool {
    |wanted| == 1 && exclude == [] && !opts.usersAndRoles
  }

  /** The end of expandCollections, for a concrete filter and a listing. */
  function Rewrite(opts: Options, wanted: seq<string>, exclude: seq<string>, names: seq<string>): Result {
    if !Included(wanted, names) then CollectionFilterError
    else if Single(wanted, exclude, opts) then Ok(opts, Applied(wanted, exclude))
    else Ok(opts.(collections := [], exclude := AddExclusions(wanted, exclude, names)), Applied(wanted, exclude))
  }

  function ExpandCollections(g: Glob, opts: Options, listing: Listing): Result {
    var wanted, exclude := TrimmedNames(opts.collections), TrimmedNames(opts.exclude);
    var patterns := HasPattern(wanted) || HasPattern(exclude);
    if wanted == [] && !patterns then Ok(opts, Applied(wanted, exclude))
    else if listing.NoLister? then
      if !patterns && Single(wanted, exclude, opts) then Ok(opts, Applied(wanted, exclude)) else CollectionFilterError
    else if listing.ListFails? then CollectionFilterError
    else if !patterns then Rewrite(opts, wanted, exclude, listing.names)
    else if !AllMatch(g, wanted, listing.names) then CollectionFilterError
    else
      var inc, exc := Expand(g, wanted, listing.names), Expand(g, exclude, listing.names);
      var opts' := opts.(collections := inc, exclude := exc);
      if inc == [] then Ok(opts', Applied(inc, exc)) else Rewrite(opts', inc, exc, listing.names)
  }

  method RewriteFilter(opts: Options, wanted: seq<string>, exclude: seq<string>, names: seq<string>) returns (r: Result)
    ensures r == Rewrite(opts, wanted, exclude, names)
  {
    for i := 0 to |wanted|
      invariant forall j :: 0 <= j < i ==> wanted[j] in names
    {
      if wanted[i] !in names { return CollectionFilterError; }
    }
    if Single(wanted, exclude, opts) { return Ok(opts, Applied(wanted, exclude)); }
    var all := exclude;
    for i := 0 to |names|
      invariant all == AddExclusions(wanted, exclude, names[..i])
    {
      assert names[..i + 1][..i] == names[..i];
      if !Keep(wanted, names[i]) && names[i] !in all { all := all + [names[i]]; }
    }
    assert names[..|names|] == names;
    r := Ok(opts.(collections := [], exclude := all), Applied(wanted, exclude));
  }

  /** expandCollections. */
  method ExpandFilter(g: Glob, opts: Options, listing: Listing) returns (r: Result)
    ensures r == ExpandCollections(g, opts, listing)
  {
    var wanted := CollectTrimmed(opts.collections);
    var exclude := CollectTrimmed(opts.exclude);
    var patterns := HasPattern(wanted) || HasPattern(exclude);
    if wanted == [] && !patterns { return Ok(opts, Applied(wanted, exclude)); }
    match listing
    case NoLister =>
      if !patterns && Single(wanted, exclude, opts) { return Ok(opts, Applied(wanted, exclude)); }
      return CollectionFilterError;
    case ListFails => return CollectionFilterError;
    case Listed(names) =>
      var opts' := opts;
      if patterns {
        var ok;
        ok, wanted := ExpandPatterns(g, wanted, names, true);
        if !ok { return CollectionFilterError; }
        ok, exclude := ExpandPatterns(g, exclude, names, false);
        opts' := opts.(collections := wanted, exclude := exclude);
        if wanted == [] { return Ok(opts', Applied(wanted, exclude)); }
      }
      r := RewriteFilter(opts', wanted, exclude, names);
  }

  // ---- What is dumped ----

  /** dumped: mongodump with opts includes the collection name. */
  predicate Dumped(name: string, opts: Options) {
    var wanted := TrimmedNames(opts.collections);
    if wanted != [] then name in wanted else name !in TrimmedNames(opts.exclude)
  }

  /** The applied filter asks for a collection. */
  predicate Asked(name: string, a: Applied) { (a.wanted == [] || name in a.wanted) && name !in a.exclude }

  /** The filter of the request asks for a listed collection. */
  predicate Requested(g: Glob, opts: Options, name: string) {
    var wanted, exclude := TrimmedNames(opts.collections), TrimmedNames(opts.exclude);
    && (wanted == [] || exists i :: 0 <= i < |wanted| && Names(g, wanted[i], name))
    && !exists i :: 0 <= i < |exclude| && Names(g, exclude[i], name)
  }

  /** No listed non-system name is empty or carries surrounding white space. */
  predicate CleanListing(names: seq<string>) { forall n :: n in names && !IsSystem(n) ==> Clean(n) }

  /** The options dump just the listed non-system collections that the applied filter asks for. */
  predicate MeaningKept(names: seq<string>, r: Result)
    requires r.Ok?
  {
    forall n :: n in names && !IsSystem(n) ==> (Dumped(n, r.opts) <==> Asked(n, r.applied))
  }

  /** A non-system name is kept by a rewritten filter exactly when it is included. */
  lemma KeepNonSystem(wanted: seq<string>, name: string)
    requires !IsSystem(name)
    ensures Keep(wanted, name) <==> name in wanted
  {
    if "system.buckets." <= name { assert false; }
  }

  // ---- What the request asks for ----

  /** A filter that names something expands to something. */
  lemma ExpandNonEmpty(g: Glob, filter: seq<string>, names: seq<string>)
    requires filter != [] && AllMatch(g, filter, names)
    ensures Expand(g, filter, names) != []
  {
    var last := filter[|filter| - 1];
    if IsPattern(last) {
      var i :| 0 <= i < |names| && Matches(g, last, names[i]);
      AddMatchesIn(g, Expand(g, filter[..|filter| - 1], names), last, names, names[i]);
    }
  }

  lemma LiteralNames(g: Glob, filter: seq<string>, name: string)
    requires !HasPattern(filter)
    ensures name in filter <==> exists i :: 0 <= i < |filter| && Names(g, filter[i], name)
  {
    if name in filter {
      var i :| 0 <= i < |filter| && filter[i] == name;
      assert Names(g, filter[i], name);
    }
  }

  /** The applied filter asks for a listed collection exactly when the request does. */
  lemma AppliedIsRequested(g: Glob, opts: Options, names: seq<string>, name: string)
    requires ExpandCollections(g, opts, Listed(names)).Ok? && name in names
    ensures Asked(name, ExpandCollections(g, opts, Listed(names)).applied) <==> Requested(g, opts, name)
  {
    var wanted, exclude := TrimmedNames(opts.collections), TrimmedNames(opts.exclude);
    if HasPattern(wanted) || HasPattern(exclude) {
      ExpandIn(g, wanted, names, name);
      ExpandIn(g, exclude, names, name);
      if wanted != [] { ExpandNonEmpty(g, wanted, names); }
    } else {
      LiteralNames(g, wanted, name);
      LiteralNames(g, exclude, name);
    }
  }

  // ---- Trimming an exclusion list ----

  /** Exclusions that stand for what a filter does not ask for, each of them clean, listed or a system collection. */
  predicate Excludes(a: Applied, names: seq<string>, all: seq<string>) {
    && (forall x :: x in all && !IsSystem(x) ==> Clean(x) || x in names)
    && forall n :: n in names && !IsSystem(n) ==> (n in all <==> !Asked(n, a))
  }

  /** Every listed non-system name that trimming changes is asked for. */
  predicate UncleanAsked(a: Applied, names: seq<string>) { forall n :: n in names && !IsSystem(n) ==> Clean(n) || Asked(n, a) }

  lemma TrimmedExclusion(a: Applied, names: seq<string>, all: seq<string>, n: string)
    requires Excludes(a, names, all) && UncleanAsked(a, names) && n in names && !IsSystem(n)
    ensures n !in TrimmedNames(all) <==> Asked(n, a)
  {
    TrimmedIn(all, n);
    if Asked(n, a) {
      forall x | x in all && Trim(x) == n && n != ""
        ensures false
      {
        if IsSystem(x) { TrimSystem(x); }
      }
    }
  }

  /** A trimmed exclusion list still means the filter exactly when every name that trimming changes is asked for. */
  lemma ExclusionsExact(a: Applied, names: seq<string>, all: seq<string>)
    requires Excludes(a, names, all)
    ensures (forall n :: n in names && !IsSystem(n) ==> (n !in TrimmedNames(all) <==> Asked(n, a))) <==> UncleanAsked(a, names)
  {
    if UncleanAsked(a, names) {
      forall n | n in names && !IsSystem(n)
        ensures n !in TrimmedNames(all) <==> Asked(n, a)
      {
        TrimmedExclusion(a, names, all, n);
      }
    } else {
      var n :| n in names && !IsSystem(n) && !Clean(n) && !Asked(n, a);
      if n in TrimmedNames(all) { TrimmedClean(all, n); }
    }
  }

  // ---- When the meaning is kept ----

  /** The names of an expanded filter: trimmed literals and listed non-system collections. */
  predicate FromRequest(list: seq<string>, names: seq<string>) { forall x :: x in list ==> Clean(x) || (x in names && !IsSystem(x)) }

  lemma {:induction false} ExpandMatched(g: Glob, filter: seq<string>, names: seq<string>, n: string)
    requires n in Expand(g, filter, names)
    ensures n in filter || (n in names && !IsSystem(n))
  {
    var init, last := filter[..|filter| - 1], filter[|filter| - 1];
    AddMatchesIn(g, Expand(g, init, names), last, names, n);
    if n in Expand(g, init, names) { ExpandMatched(g, init, names, n); }
  }

  lemma TrimmedFromRequest(list: seq<string>, names: seq<string>)
    ensures FromRequest(TrimmedNames(list), names)
  {
    forall x | x in TrimmedNames(list)
      ensures Clean(x)
    {
      TrimmedClean(list, x);
    }
  }

  lemma ExpandFromRequest(g: Glob, list: seq<string>, names: seq<string>)
    ensures FromRequest(Expand(g, TrimmedNames(list), names), names)
  {
    forall x | x in Expand(g, TrimmedNames(list), names)
      ensures Clean(x) || (x in names && !IsSystem(x))
    {
      ExpandMatched(g, TrimmedNames(list), names, x);
      if x in TrimmedNames(list) { TrimmedClean(list, x); }
    }
  }

  /** A filter of one collection: it is clean, or nothing else is listed and its name trims to nothing. */
  predicate SingleKept(c: string, names: seq<string>) { Clean(c) || (Trim(c) == "" && forall n :: n in names && !IsSystem(n) ==> n == c) }

  lemma TrimmedSingle(c: string)
    ensures TrimmedNames([c]) == if Trim(c) == "" then [] else [Trim(c)]
  {
    assert [c][..0] == [];
  }

  /** The exclusions a rewritten filter ends with stand for what it does not ask for. */
  lemma RewriteExcludes(wanted: seq<string>, exclude: seq<string>, names: seq<string>)
    requires wanted != [] && FromRequest(exclude, names)
    ensures Excludes(Applied(wanted, exclude), names, AddExclusions(wanted, exclude, names))
  {
    var all := AddExclusions(wanted, exclude, names);
    forall x
      ensures x in all <==> x in exclude || (x in names && !Keep(wanted, x))
    {
      AddExclusionsIn(wanted, exclude, names, x);
    }
    forall n | n in names && !IsSystem(n)
      ensures n in all <==> !Asked(n, Applied(wanted, exclude))
    {
      KeepNonSystem(wanted, n);
    }
  }

  /** The request with its patterns expanded over the listing. */
  function Concrete(g: Glob, opts: Options, names: seq<string>): Applied {
    var wanted, exclude := TrimmedNames(opts.collections), TrimmedNames(opts.exclude);
    if HasPattern(wanted) || HasPattern(exclude) then Applied(Expand(g, wanted, names), Expand(g, exclude, names)) else Applied(wanted, exclude)
  }

  /** Every listed non-system name that trimming changes is requested. */
  predicate UncleanRequested(g: Glob, opts: Options, names: seq<string>) {
    forall n :: n in names && !IsSystem(n) ==> Clean(n) || Requested(g, opts, n)
  }

  /** When a request over a listing keeps its meaning. */
  predicate KeepsMeaning(g: Glob, opts: Options, names: seq<string>) {
    var literal := !HasPattern(TrimmedNames(opts.collections)) && !HasPattern(TrimmedNames(opts.exclude));
    var a := Concrete(g, opts, names);
    if Single(a.wanted, a.exclude, opts) then SingleKept(a.wanted[0], names)
    else (literal && a.wanted == []) || UncleanRequested(g, opts, names)
  }

  lemma UncleanAskedIsRequested(g: Glob, opts: Options, names: seq<string>)
    requires ExpandCollections(g, opts, Listed(names)).Ok?
    ensures UncleanAsked(ExpandCollections(g, opts, Listed(names)).applied, names) <==> UncleanRequested(g, opts, names)
  {
    forall n | n in names
      ensures Asked(n, ExpandCollections(g, opts, Listed(names)).applied) <==> Requested(g, opts, n)
    {
      AppliedIsRequested(g, opts, names, n);
    }
  }

  /**
   * An accepted request keeps its meaning for every listed non-system collection if and only if
   * each listed name that is empty or carries surrounding white space is itself requested, by a
   * pattern: names are trimmed again when they are used. A request for one collection keeps it if
   * and only if that collection's name is clean (or it is all there is), and a request of literal
   * exclusions always does.
   */
  lemma MeaningKeptIff(g: Glob, opts: Options, names: seq<string>)
    requires ExpandCollections(g, opts, Listed(names)).Ok?
    ensures MeaningKept(names, ExpandCollections(g, opts, Listed(names))) <==> KeepsMeaning(g, opts, names)
  {
    var r := ExpandCollections(g, opts, Listed(names));
    var wanted, exclude := TrimmedNames(opts.collections), TrimmedNames(opts.exclude);
    UncleanAskedIsRequested(g, opts, names);
    if HasPattern(wanted) || HasPattern(exclude) {
      PatternMeaning(g, opts, names);
    } else if wanted != [] {
      if Single(wanted, exclude, opts) {
        TrimmedClean(opts.collections, wanted[0]);
      } else {
        TrimmedFromRequest(opts.exclude, names);
        RewriteExcludes(wanted, exclude, names);
        ExclusionsExact(r.applied, names, r.opts.exclude);
      }
    }
  }

  lemma PatternMeaning(g: Glob, opts: Options, names: seq<string>)
    requires ExpandCollections(g, opts, Listed(names)).Ok? && (HasPattern(TrimmedNames(opts.collections)) || HasPattern(TrimmedNames(opts.exclude)))
    ensures var r, a := ExpandCollections(g, opts, Listed(names)), Concrete(g, opts, names);
            MeaningKept(names, r) <==> if Single(a.wanted, a.exclude, opts) then SingleKept(a.wanted[0], names) else UncleanAsked(r.applied, names)
  {
    var r := ExpandCollections(g, opts, Listed(names));
    var inc, exc := Expand(g, TrimmedNames(opts.collections), names), Expand(g, TrimmedNames(opts.exclude), names);
    ExpandFromRequest(g, opts.collections, names);
    ExpandFromRequest(g, opts.exclude, names);
    if Single(inc, exc, opts) {
      SingleMeaning(inc[0], names, r);
    } else {
      if inc != [] { RewriteExcludes(inc, exc, names); }
      ExclusionsExact(r.applied, names, r.opts.exclude);
    }
  }

  lemma SingleMeaning(c: string, names: seq<string>, r: Result)
    requires r.Ok? && r.opts.collections == [c] && r.opts.exclude == [] && r.applied == Applied([c], [])
    requires c in names && (Clean(c) || !IsSystem(c))
    ensures MeaningKept(names, r) <==> SingleKept(c, names)
  {
    TrimmedSingle(c);
  }

  /**
   * Rewriting keeps the meaning of a filter: when the listed non-system names carry no
   * surrounding white space, mongodump dumps such a collection exactly when the applied
   * filter asks for it, which is exactly when the request does.
   */
  lemma FilterKeepsMeaning(g: Glob, opts: Options, names: seq<string>, name: string)
    requires ExpandCollections(g, opts, Listed(names)).Ok? && CleanListing(names) && name in names && !IsSystem(name)
    ensures var r := ExpandCollections(g, opts, Listed(names));
            && (Dumped(name, r.opts) <==> Asked(name, r.applied))
            && (Asked(name, r.applied) <==> Requested(g, opts, name))
  {
    var r := ExpandCollections(g, opts, Listed(names));
    AppliedIsRequested(g, opts, names, name);
    MeaningKeptIff(g, opts, names);
    if Single(r.applied.wanted, r.applied.exclude, opts) { SingleClean(g, opts, names); }
  }

  lemma SingleClean(g: Glob, opts: Options, names: seq<string>)
    requires ExpandCollections(g, opts, Listed(names)).Ok? && CleanListing(names)
    requires |ExpandCollections(g, opts, Listed(names)).applied.wanted| == 1
    ensures Clean(ExpandCollections(g, opts, Listed(names)).applied.wanted[0])
  {
    var wanted := ExpandCollections(g, opts, Listed(names)).applied.wanted;
    TrimmedFromRequest(opts.collections, names);
    ExpandFromRequest(g, opts.collections, names);
    assert wanted[0] in wanted;
  }

  /** Fail closed: every collection the applied filter includes exists. */
  lemma IncludedExist(g: Glob, opts: Options, names: seq<string>, name: string)
    requires ExpandCollections(g, opts, Listed(names)).Ok? && name in ExpandCollections(g, opts, Listed(names)).applied.wanted
    ensures name in names
  {
    var inc := ExpandCollections(g, opts, Listed(names)).applied.wanted;
    var i :| 0 <= i < |inc| && inc[i] == name;
  }

  /** Without a listing a filter that is accepted already means what it says, for every name. */
  lemma UnlistedKeepsMeaning(g: Glob, opts: Options, listing: Listing, name: string)
    requires !listing.Listed? && ExpandCollections(g, opts, listing).Ok?
    ensures var r := ExpandCollections(g, opts, listing);
            Dumped(name, r.opts) <==> Asked(name, r.applied)
  {
  }

  // ---- Names with surrounding white space ----

  lemma TrimmedPair(a: string, b: string)
    requires Clean(a) && Clean(b) && a != b
    ensures TrimmedNames([a, b]) == [a, b]
  {
    TrimmedSingle(a);
    assert [a, b][..1] == [a];
  }

  /** A plain collection name: clean, no pattern, no system collection. */
  predicate PlainName(n: string) { Clean(n) && !IsPattern(n) && !IsSystem(n) }

  lemma WhiteSpaceNames()
    ensures PlainName("a") && PlainName("b") && !IsSystem(" a") && Trim(" a") == "a"
  {
    assert " a"[1..] == "a";
  }

  /** The exclusions of a rewritten filter for a and b take a with x. */
  lemma WhiteSpaceExcludes(a: string, b: string, x: string)
    requires PlainName(a) && PlainName(b) && x != a && x != b && !IsSystem(x) && Trim(x) == a
    ensures a in TrimmedNames(AddExclusions([a, b], [], [a, b, x]))
  {
    var names := [a, b, x];
    AddExclusionsIn([a, b], [], names, x);
    assert names[2] == x;
    KeepNonSystem([a, b], x);
    TrimmedIn(AddExclusions([a, b], [], names), a);
  }

  /** A request for two plain names that are listed is rewritten. */
  lemma PairRewritten(g: Glob, a: string, b: string, names: seq<string>)
    requires PlainName(a) && PlainName(b) && a != b && a in names && b in names
    ensures ExpandCollections(g, Options([a, b], [], false), Listed(names)) == Ok(Options([], AddExclusions([a, b], [], names), false), Applied([a, b], []))
  {
    TrimmedPair(a, b);
  }

  /**
   * Requesting a and b of a database that also holds x, a with white space around it, does not dump
   * a; such names are "a", "b" and " a".
   */
  lemma WhiteSpaceExample(g: Glob, a: string, b: string, x: string)
    requires PlainName(a) && PlainName(b) && a != b && x != a && x != b && !IsSystem(x) && Trim(x) == a
    ensures var r := ExpandCollections(g, Options([a, b], [], false), Listed([a, b, x]));
            r.Ok? && Asked(a, r.applied) && !Dumped(a, r.opts)
    ensures PlainName("a") && PlainName("b") && !IsSystem(" a") && Trim(" a") == "a"
  {
    PairRewritten(g, a, b, [a, b, x]);
    WhiteSpaceExcludes(a, b, x);
    WhiteSpaceNames();
  }

  // ---- mongodump's restrictions ----

  /** The values of the --collection or --excludeCollection arguments. */
  function ArgsOf(list: seq<string>): seq<string> {
    if list == [] then [] else ArgsOf(list[..|list| - 1]) + if Trim(list[|list| - 1]) == "" then [] else [Trim(list[|list| - 1])]
  }

  lemma {:induction false} ArgsAreTrimmed(list: seq<string>, n: string)
    ensures n in ArgsOf(list) <==> n in TrimmedNames(list)
  {
    if list != [] { ArgsAreTrimmed(list[..|list| - 1], n); }
  }

  /** The options name one collection alone: no other, no exclusion, no users and roles. */
  ghost predicate OneAlone(opts: Options, x: string) {
    && (forall y :: y in ArgsOf(opts.collections) ==> y == x)
    && ArgsOf(opts.exclude) == [] && !opts.usersAndRoles
  }

  lemma SingleAlone(opts: Options, x: string)
    requires |TrimmedNames(opts.collections)| == 1 && TrimmedNames(opts.exclude) == [] && !opts.usersAndRoles
    requires x in ArgsOf(opts.collections)
    ensures OneAlone(opts, x)
  {
    forall y | y in ArgsOf(opts.collections)
      ensures y == x
    {
      ArgsAreTrimmed(opts.collections, x);
      ArgsAreTrimmed(opts.collections, y);
    }
    NoArgs(opts.exclude);
  }

  lemma TrimmedOne(list: seq<string>, x: string)
    requires |list| == 1 && x in ArgsOf(list)
    ensures |TrimmedNames(list)| == 1
  {
    ArgsAreTrimmed(list, x);
    assert list[..0] == [];
  }

  /**
   * The arguments built from an accepted filter never name two collections, and never
   * combine --collection with --excludeCollection or --dumpDbUsersAndRoles, which
   * mongodump would ignore or refuse.
   */
  lemma AcceptedArgs(g: Glob, opts: Options, listing: Listing, x: string)
    requires ExpandCollections(g, opts, listing).Ok?
    requires x in ArgsOf(ExpandCollections(g, opts, listing).opts.collections)
    ensures OneAlone(ExpandCollections(g, opts, listing).opts, x)
  {
    var wanted, exclude := TrimmedNames(opts.collections), TrimmedNames(opts.exclude);
    if HasPattern(wanted) || HasPattern(exclude) {
      PatternArgs(g, opts, listing.names, x);
    } else {
      ArgsAreTrimmed(opts.collections, x);
      SingleAlone(opts, x);
    }
  }

  lemma PatternArgs(g: Glob, opts: Options, names: seq<string>, x: string)
    requires ExpandCollections(g, opts, Listed(names)).Ok?
    requires HasPattern(TrimmedNames(opts.collections)) || HasPattern(TrimmedNames(opts.exclude))
    requires x in ArgsOf(ExpandCollections(g, opts, Listed(names)).opts.collections)
    ensures OneAlone(ExpandCollections(g, opts, Listed(names)).opts, x)
  {
    var r := ExpandCollections(g, opts, Listed(names));
    var wanted, exclude := TrimmedNames(opts.collections), TrimmedNames(opts.exclude);
    var inc, exc := Expand(g, wanted, names), Expand(g, exclude, names);
    ArgsAreTrimmed(r.opts.collections, x);
    assert r.opts.collections == inc && |inc| == 1 && exc == [];
    TrimmedOne(inc, x);
    SingleAlone(r.opts, x);
  }

  lemma NoArgs(list: seq<string>)
    ensures TrimmedNames(list) == [] ==> ArgsOf(list) == []
  {
    if ArgsOf(list) != [] { ArgsAreTrimmed(list, ArgsOf(list)[0]); }
  }

  // ---- The manifest ----

  /** captureManifest: the captured collections that are dumped. */
  function KeptNames(captured: seq<string>, opts: Options): seq<string> {
    if captured == [] then []
    else KeptNames(captured[..|captured| - 1], opts) + if Dumped(captured[|captured| - 1], opts) then [captured[|captured| - 1]] else []
  }

  method FilterManifest(captured: seq<string>, opts: Options) returns (kept: seq<string>)
    ensures kept == KeptNames(captured, opts)
  {
    kept := [];
    for i := 0 to |captured|
      invariant kept == KeptNames(captured[..i], opts)
    {
      assert captured[..i + 1][..i] == captured[..i];
      if Dumped(captured[i], opts) { kept := kept + [captured[i]]; }
    }
    assert captured[..|captured|] == captured;
  }

  lemma {:induction false} KeptIn(captured: seq<string>, opts: Options, n: string)
    ensures multiset(KeptNames(captured, opts))[n] == if Dumped(n, opts) then multiset(captured)[n] else 0
  {
    if captured != [] {
      KeptIn(captured[..|captured| - 1], opts, n);
      assert captured == captured[..|captured| - 1] + [captured[|captured| - 1]];
    }
  }

  /** The manifest of a filtered backup holds just the captured collections the request asks for. */
  lemma ManifestMatchesRequest(g: Glob, opts: Options, names: seq<string>, captured: seq<string>, n: string)
    requires ExpandCollections(g, opts, Listed(names)).Ok? && CleanListing(names) && n in names && !IsSystem(n)
    ensures multiset(KeptNames(captured, ExpandCollections(g, opts, Listed(names)).opts))[n]
         == if Requested(g, opts, n) then multiset(captured)[n] else 0
  {
    FilterKeepsMeaning(g, opts, names, n);
    KeptIn(captured, ExpandCollections(g, opts, Listed(names)).opts, n);
  }
}
