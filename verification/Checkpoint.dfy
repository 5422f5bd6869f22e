/** Finding the latest checkpoint of a training experiment when none is named. */
module Checkpoint {
  import opened Wrappers
  import opened Json
  import opened Strings

  // --------------------------------------------------------------------- stamps

  datatype Stamp = Stamp(year: nat, month: nat, day: nat, hour: nat, minute: nat, second: nat) {
    /** Every field has the digits that its place in a name has. */
    predicate Fits() { year < 10000 && month < 100 && day < 100 && hour < 100 && minute < 100 && second < 100 }
  }

  predicate Before(a: Stamp, b: Stamp) {
    if a.year != b.year then a.year < b.year
    else if a.month != b.month then a.month < b.month
    else if a.day != b.day then a.day < b.day
    else if a.hour != b.hour then a.hour < b.hour
    else if a.minute != b.minute then a.minute < b.minute
    else a.second < b.second
  }

  function Pad(width: nat, n: nat): (s: string)
    ensures |s| == width
  {
    if width == 0 then "" else Pad(width - 1, n / 10) + [Digit(n % 10)]
  }

  /** A name that starts with YYYY-MM-DD_HH-MM-SS. */
  function Named(a: Stamp, rest: string): string {
    Pad(4, a.year) + ("-" + (Pad(2, a.month) + ("-" + (Pad(2, a.day) + ("_" +
    (Pad(2, a.hour) + ("-" + (Pad(2, a.minute) + ("-" + (Pad(2, a.second) + rest))))))))))
  }

  lemma {:induction false} PadReads(width: nat, n: nat)
    requires n < Pow10(width)
    ensures AllDigits(Pad(width, n)) && DigitsValue(Pad(width, n)) == n
  {
    if width > 0 {
      PadReads(width - 1, n / 10);
      assert Pad(width, n)[..width - 1] == Pad(width - 1, n / 10);
    }
  }

  /** The text between two places of a name is the padded number of a field. */
  predicate Shows(name: string, i: nat, j: nat, value: nat) {
    i <= j <= |name| && AllDigits(name[i..j]) && DigitsValue(name[i..j]) == value
  }

  lemma ShowsField(name: string, i: nat, width: nat, n: nat, tail: string)
    requires i <= |name| && name[i..] == Pad(width, n) + tail && n < Pow10(width)
    ensures i + width <= |name| && Shows(name, i, i + width, n) && name[i + width..] == tail
    ensures tail != "" ==> i + width < |name| && name[i + width] == tail[0] && name[i + width + 1..] == tail[1..]
  {
    PadReads(width, n);
    assert name[i..][..width] == name[i..i + width] == Pad(width, n);
    assert name[i..][width..] == name[i + width..] == tail;
  }

  /** A name reads YYYY-MM-DD_HH-MM-SS, and then the rest. */
  lemma NameShowsStamp(a: Stamp, rest: string)
    requires a.Fits()
    ensures var name := Named(a, rest);
            && |name| == 19 + |rest| && name[19..] == rest
            && Shows(name, 0, 4, a.year) && Shows(name, 5, 7, a.month) && Shows(name, 8, 10, a.day)
            && Shows(name, 11, 13, a.hour) && Shows(name, 14, 16, a.minute) && Shows(name, 17, 19, a.second)
            && name[4] == name[7] == name[13] == name[16] == '-' && name[10] == '_'
  {
    var name := Named(a, rest);
    assert Pow10(4) == 10 * Pow10(3) == 100 * Pow10(2) == 1000 * Pow10(1) == 10000;
    var t6 := Pad(2, a.second) + rest;
    var t5 := Pad(2, a.minute) + ("-" + t6);
    var t4 := Pad(2, a.hour) + ("-" + t5);
    var t3 := Pad(2, a.day) + ("_" + t4);
    var t2 := Pad(2, a.month) + ("-" + t3);
    hide Pad, Shows;
    assert name[0..] == Pad(4, a.year) + ("-" + t2);
    ShowsField(name, 0, 4, a.year, "-" + t2);
    ShowsField(name, 5, 2, a.month, "-" + t3);
    ShowsField(name, 8, 2, a.day, "_" + t4);
    ShowsField(name, 11, 2, a.hour, "-" + t5);
    ShowsField(name, 14, 2, a.minute, "-" + t6);
    ShowsField(name, 17, 2, a.second, rest);
    hide *;
  }

  lemma LessAfterChar(c: char, s: string, t: string)
    ensures Less([c] + s, [c] + t) <==> Less(s, t)
  {
    assert ([c] + s)[1..] == s && ([c] + t)[1..] == t;
  }

  lemma LessAtDigit(a: nat, b: nat, s: string, t: string)
    requires a < 10 && b < 10
    ensures Less([Digit(a)] + s, [Digit(b)] + t) <==> (a < b || (a == b && Less(s, t)))
  {
    if a == b {
      LessAfterChar(Digit(a), s, t);
    }
  }

  /** Padded numbers sort like numbers; after equal ones, what follows decides. */
  lemma {:induction false} PadOrder(width: nat, a: nat, b: nat, s: string, t: string)
    requires a < Pow10(width) && b < Pow10(width)
    ensures Less(Pad(width, a) + s, Pad(width, b) + t) <==> (a < b || (a == b && Less(s, t)))
  {
    if width == 0 {
      assert Pad(width, a) + s == s && Pad(width, b) + t == t;
    } else {
      var s', t' := [Digit(a % 10)] + s, [Digit(b % 10)] + t;
      assert Pad(width, a) + s == Pad(width - 1, a / 10) + s';
      assert Pad(width, b) + t == Pad(width - 1, b / 10) + t';
      PadOrder(width - 1, a / 10, b / 10, s', t');
      LessAtDigit(a % 10, b % 10, s, t);
    }
  }

  lemma PadOrder2(a: nat, b: nat, s: string, t: string)
    requires a < 100 && b < 100
    ensures Less(Pad(2, a) + s, Pad(2, b) + t) <==> (a < b || (a == b && Less(s, t)))
  {
    assert Pow10(2) == 10 * Pow10(1) == 100;
    PadOrder(2, a, b, s, t);
  }

  /** Name order is time order; of two names with one stamp, what follows the stamp decides. */
  lemma NameOrderIsTimeOrder(a: Stamp, b: Stamp, s: string, t: string)
    requires a.Fits() && b.Fits()
    ensures Less(Named(a, s), Named(b, t)) <==> (Before(a, b) || (a == b && Less(s, t)))
  {
    hide Less, Pad;
    var a6, b6 := Pad(2, a.second) + s, Pad(2, b.second) + t;
    var a5, b5 := Pad(2, a.minute) + ("-" + a6), Pad(2, b.minute) + ("-" + b6);
    var a4, b4 := Pad(2, a.hour) + ("-" + a5), Pad(2, b.hour) + ("-" + b5);
    var a3, b3 := Pad(2, a.day) + ("_" + a4), Pad(2, b.day) + ("_" + b4);
    var a2, b2 := Pad(2, a.month) + ("-" + a3), Pad(2, b.month) + ("-" + b3);
    PadOrder2(a.second, b.second, s, t);
    LessAfterChar('-', a6, b6);
    PadOrder2(a.minute, b.minute, "-" + a6, "-" + b6);
    LessAfterChar('-', a5, b5);
    PadOrder2(a.hour, b.hour, "-" + a5, "-" + b5);
    LessAfterChar('_', a4, b4);
    PadOrder2(a.day, b.day, "_" + a4, "_" + b4);
    LessAfterChar('-', a3, b3);
    PadOrder2(a.month, b.month, "-" + a3, "-" + b3);
    LessAfterChar('-', a2, b2);
    assert Pow10(4) == 10 * Pow10(3) == 100 * Pow10(2) == 1000 * Pow10(1) == 10000;
    PadOrder(4, a.year, b.year, "-" + a2, "-" + b2);
  }

  /** The last of the sorted run directories. */
  function LatestRun(runs: set<string>): string
    requires runs != {}
  {
    var sorted := SortedKeys(runs);
    assert forall k :: k in runs ==> k in sorted;
    sorted[|sorted| - 1]
  }

  lemma LatestRunIsLast(runs: set<string>)
    requires runs != {}
    ensures LatestRun(runs) in runs && forall run :: run in runs && run != LatestRun(runs) ==> Less(run, LatestRun(runs))
  {
    var sorted := SortedKeys(runs);
    assert LatestRun(runs) in sorted;
    forall run | run in runs && run != LatestRun(runs)
      ensures Less(run, LatestRun(runs))
    {
      var i :| 0 <= i < |sorted| && sorted[i] == run;
    }
  }

  /** When the runs carry different stamps, the one that is chosen is newer than all others. */
  lemma LatestRunIsNewest(runs: set<string>, stamp: map<string, Stamp>, rest: map<string, string>)
    requires runs != {} && runs <= stamp.Keys && runs <= rest.Keys
    requires forall run :: run in runs ==> stamp[run].Fits() && run == Named(stamp[run], rest[run])
    requires forall r, q :: r in runs && q in runs && r != q ==> stamp[r] != stamp[q]
    ensures forall run :: run in runs && run != LatestRun(runs) ==> Before(stamp[run], stamp[LatestRun(runs)])
  {
    LatestRunIsLast(runs);
    var last := LatestRun(runs);
    forall run | run in runs && run != last
      ensures Before(stamp[run], stamp[last])
    {
      NameOrderIsTimeOrder(stamp[run], stamp[last], rest[run], rest[last]);
    }
  }

  // ----------------------------------------------------------------- iterations

  predicate EndsWith(s: string, t: string) { |t| <= |s| && s[|s| - |t|..] == t }

  /** Where the digits at the end of a text start. */
  function DigitsStart(s: string): (d: nat)
    ensures d <= |s| && AllDigits(s[d..])
    ensures d > 0 ==> !IsDigit(s[d - 1])
  {
    if s != "" && IsDigit(s[|s| - 1]) then DigitsStart(s[..|s| - 1]) else |s|
  }

  /** The number in `model_<number>.pt` at the end of a path, or -1. */
  function Iteration(path: string): int {
    if !EndsWith(path, ".pt") then -1
    else
      var stem := path[..|path| - 3];
      var d := DigitsStart(stem);
      if d < |stem| && EndsWith(stem[..d], "model_") then DigitsValue(stem[d..]) else -1
  }

  function ModelName(digits: string): string { "model_" + digits + ".pt" }

  lemma {:induction false} DigitsStartAfter(front: string, digits: string)
    requires front != "" && !IsDigit(front[|front| - 1]) && AllDigits(digits)
    ensures DigitsStart(front + digits) == |front|
  {
    if digits == "" {
      assert front + digits == front;
    } else {
      DigitsStartAfter(front, digits[..|digits| - 1]);
      assert (front + digits)[..|front + digits| - 1] == front + digits[..|digits| - 1];
    }
  }

  lemma IterationOf(front: string, digits: string)
    requires digits != "" && AllDigits(digits)
    ensures Iteration(front + ModelName(digits)) == DigitsValue(digits)
  {
    var path := front + ModelName(digits);
    var stem := front + "model_" + digits;
    assert path == stem + ".pt";
    assert path[..|path| - 3] == stem;
    DigitsStartAfter(front + "model_", digits);
    var d := DigitsStart(stem);
    assert stem[..d] == front + "model_" && stem[d..] == digits;
  }

  /** A path has an iteration exactly when it ends in `model_<digits>.pt`. */
  lemma NumberedPaths(path: string)
    ensures Iteration(path) >= -1
    ensures Iteration(path) >= 0 <==>
            exists front, digits :: digits != "" && AllDigits(digits) && path == front + ModelName(digits)
  {
    if Iteration(path) >= 0 {
      var stem := path[..|path| - 3];
      var d := DigitsStart(stem);
      var front := stem[..d - 6];
      assert stem[..d] == front + "model_";
      assert stem == stem[..d] + stem[d..] && path == stem + path[|path| - 3..];
      assert path == front + ModelName(stem[d..]);
    }
    forall front, digits | digits != "" && AllDigits(digits) && path == front + ModelName(digits)
      ensures Iteration(path) >= 0
    {
      IterationOf(front, digits);
    }
  }

  lemma WrittenIterations(front: string, n: nat)
    ensures Iteration(front + ModelName(DecimalNat(n))) == n
  {
    DecimalNatValue(n);
    IterationOf(front, DecimalNat(n));
  }

  /** The folder a file is in does not matter. */
  lemma FolderDoesNotMatter(folder: string, name: string)
    ensures Iteration(folder + "/" + name) == Iteration(name)
  {
    hide Iteration;
    var path := folder + "/" + name;
    NumberedPaths(path);
    NumberedPaths(name);
    if Iteration(name) >= 0 {
      var front, digits :| digits != "" && AllDigits(digits) && name == front + ModelName(digits);
      hide *;
      IterationOf(front, digits);
      IterationOf(folder + "/" + front, digits);
      assert path == folder + "/" + front + ModelName(digits);
    } else if Iteration(path) >= 0 {
      var front, digits :| digits != "" && AllDigits(digits) && path == front + ModelName(digits);
      hide *;
      NoSlash(digits);
      CutAtSlash(folder, name, front, ModelName(digits));
    }
  }

  lemma CutAtSlash(folder: string, name: string, front: string, last: string)
    requires folder + "/" + name == front + last && '/' !in last
    ensures |folder| < |front| && name == front[|folder| + 1..] + last
  {
    var path, n := folder + "/" + name, |folder|;
    assert path[n] == '/';
    assert forall i :: 0 <= i < |last| ==> path[|front| + i] == last[i] && last[i] in last;
    assert |front| <= n ==> 0 <= n - |front| < |last|;
    assert path[n + 1..] == name;
  }

  lemma NoSlash(digits: string)
    requires AllDigits(digits)
    ensures '/' !in ModelName(digits)
  {
  }

  // ----------------------------------------------------------------------- sort

  function Insert(x: string, sorted: seq<string>): (r: seq<string>)
    ensures |r| == |sorted| + 1
  {
    if sorted == [] || Iteration(x) <= Iteration(sorted[0]) then [x] + sorted
    else [sorted[0]] + Insert(x, sorted[1..])
  }

  /** list.sort with the iteration as its key: ascending, and stable. */
  function Sort(paths: seq<string>): (r: seq<string>)
    ensures |r| == |paths|
  {
    if paths == [] then [] else Insert(paths[0], Sort(paths[1..]))
  }

  predicate Ascending(s: seq<string>) {
    forall i, j :: 0 <= i < j < |s| ==> Iteration(s[i]) <= Iteration(s[j])
  }

  /** The paths of one iteration, in their order. */
  function OfIteration(s: seq<string>, n: int): seq<string> {
    if s == [] then []
    else (if Iteration(s[0]) == n then [s[0]] else []) + OfIteration(s[1..], n)
  }

  lemma {:induction false} InsertAdds(x: string, sorted: seq<string>)
    ensures multiset(Insert(x, sorted)) == multiset([x] + sorted)
  {
    hide Iteration;
    if sorted != [] && Iteration(x) > Iteration(sorted[0]) {
      InsertAdds(x, sorted[1..]);
      assert sorted == [sorted[0]] + sorted[1..];
    }
  }

  lemma {:induction false} InsertSorts(x: string, sorted: seq<string>)
    requires Ascending(sorted)
    ensures Ascending(Insert(x, sorted))
  {
    hide Iteration;
    if sorted == [] || Iteration(x) <= Iteration(sorted[0]) {
      assert forall y :: y in sorted ==> Iteration(x) <= Iteration(y);
      AscendingFrom(x, sorted);
    } else {
      InsertSorts(x, sorted[1..]);
      InsertAdds(x, sorted[1..]);
      var after := Insert(x, sorted[1..]);
      forall y | y in after
        ensures Iteration(sorted[0]) <= Iteration(y)
      {
        assert y in multiset(after);
        assert y == x || y in sorted[1..];
      }
      AscendingFrom(sorted[0], after);
    }
  }

  lemma AscendingFrom(least: string, s: seq<string>)
    requires Ascending(s) && forall y :: y in s ==> Iteration(least) <= Iteration(y)
    ensures Ascending([least] + s)
  {
  }

  lemma {:induction false} InsertKeepsTies(x: string, sorted: seq<string>, n: int)
    requires Ascending(sorted)
    ensures OfIteration(Insert(x, sorted), n) == OfIteration([x] + sorted, n)
  {
    hide Iteration;
    if sorted != [] && Iteration(x) > Iteration(sorted[0]) {
      InsertKeepsTies(x, sorted[1..], n);
      var after := Insert(x, sorted[1..]);
      assert ([sorted[0]] + after)[1..] == after;
      assert ([x] + sorted)[1..] == sorted;
      assert ([x] + sorted[1..])[1..] == sorted[1..];
    }
  }

  /** Ascending, nothing lost or made up, and ties in their first order. */
  lemma {:induction false} SortIsStable(paths: seq<string>, n: int)
    ensures Ascending(Sort(paths)) && multiset(Sort(paths)) == multiset(paths)
    ensures OfIteration(Sort(paths), n) == OfIteration(paths, n)
  {
    if paths != [] {
      SortIsStable(paths[1..], n);
      InsertSorts(paths[0], Sort(paths[1..]));
      InsertAdds(paths[0], Sort(paths[1..]));
      InsertKeepsTies(paths[0], Sort(paths[1..]), n);
      assert paths == [paths[0]] + paths[1..];
      assert ([paths[0]] + Sort(paths[1..]))[1..] == Sort(paths[1..]);
    }
  }

  /** The j-th path is the last one with the highest iteration. */
  predicate IsLastHighest(paths: seq<string>, j: nat) {
    && j < |paths|
    && (forall k :: 0 <= k < j ==> Iteration(paths[k]) <= Iteration(paths[j]))
    && (forall k :: j < k < |paths| ==> Iteration(paths[k]) < Iteration(paths[j]))
  }

  lemma {:induction false} LastOfSorted(paths: seq<string>) returns (j: nat)
    requires paths != []
    ensures IsLastHighest(paths, j) && Sort(paths)[|paths| - 1] == paths[j]
  {
    var x, rest := paths[0], paths[1..];
    if rest == [] {
      j := 0;
    } else {
      var k := LastOfSorted(rest);
      SortIsStable(rest, 0);
      LastOfInsert(x, Sort(rest));
      assert paths == [x] + rest;
      assert Sort(paths) == Insert(x, Sort(rest));
      hide *;
      j := if Iteration(x) > Iteration(rest[k]) then 0 else k + 1;
      LastHighestAfter(x, rest, k, j);
    }
  }

  lemma LastHighestAfter(x: string, rest: seq<string>, k: nat, j: nat)
    requires IsLastHighest(rest, k) && j == if Iteration(x) > Iteration(rest[k]) then 0 else k + 1
    ensures IsLastHighest([x] + rest, j)
  {
    hide Iteration;
    var paths := [x] + rest;
    assert forall i :: 0 < i < |paths| ==> paths[i] == rest[i - 1];
    forall i | 0 <= i < |rest|
      ensures Iteration(rest[i]) <= Iteration(rest[k])
    {
      if i > k {
        assert Iteration(rest[i]) < Iteration(rest[k]);
      }
    }
  }

  lemma {:induction false} LastOfInsert(x: string, sorted: seq<string>)
    requires sorted != [] && Ascending(sorted)
    ensures var last, after := sorted[|sorted| - 1], Insert(x, sorted);
            after[|sorted|] == if Iteration(x) > Iteration(last) then x else last
  {
    hide Iteration;
    if Iteration(x) > Iteration(sorted[0]) && |sorted| > 1 {
      LastOfInsert(x, sorted[1..]);
    }
  }

  // -------------------------------------------------------------------- resolve

  datatype Entry = File | Directory(names: seq<string>)

  datatype Resolved = Found(path: string) | NoRoot | NoRuns | NoModels

  /** The names that `model_*.pt` matches. */
  function Models(names: seq<string>): (models: seq<string>)
    ensures forall name :: name in models <==> name in names && IsModel(name)
  {
    if names == [] then []
    else (if IsModel(names[0]) then [names[0]] else []) + Models(names[1..])
  }

  predicate IsModel(name: string) { |name| >= 9 && "model_" <= name && EndsWith(name, ".pt") }

  /** The pattern: something, possibly nothing, between the two fixed parts. */
  lemma ModelNames(name: string)
    ensures IsModel(name) <==> exists middle :: name == "model_" + middle + ".pt"
  {
    if IsModel(name) {
      assert name == "model_" + name[6..|name| - 3] + ".pt";
    }
    forall middle | name == "model_" + middle + ".pt"
      ensures IsModel(name)
    {
      assert name[|name| - 3..] == ".pt";
    }
  }

  function InFolder(folder: string, names: seq<string>): seq<string> {
    seq(|names|, i requires 0 <= i < |names| => folder + "/" + names[i])
  }

  function Directories(entries: map<string, Entry>): set<string> { set name | name in entries && entries[name].Directory? }

  /** `entries` is what is in the log root, a directory with its listing; None when there is no such root. */
  function Resolve(checkpoint: string, root: string, entries: Option<map<string, Entry>>): Resolved {
    if checkpoint != "" then Found(checkpoint)
    else if entries.None? then NoRoot
    else if Directories(entries.value) == {} then NoRuns
    else
      var run := LatestRun(Directories(entries.value));
      LatestRunIsLast(Directories(entries.value));
      var models := InFolder(root + "/" + run, Models(entries.value[run].names));
      if models == [] then NoModels else Found(Sort(models)[|models| - 1])
  }

  predicate IsGreatest(run: string, runs: set<string>) {
    run in runs && forall other :: other in runs && other != run ==> Less(other, run)
  }

  predicate HasModel(names: seq<string>) { exists name :: name in names && IsModel(name) }

  lemma GreatestIsLatest(runs: set<string>)
    requires runs != {}
    ensures forall run :: IsGreatest(run, runs) <==> run == LatestRun(runs)
  {
    LatestRunIsLast(runs);
    hide Less;
    forall run | IsGreatest(run, runs)
      ensures run == LatestRun(runs)
    {
      LessTotal(run, LatestRun(runs));
    }
  }

  lemma SomeModel(names: seq<string>)
    ensures Models(names) != [] <==> HasModel(names)
  {
    hide IsModel;
    assert Models(names) != [] ==> Models(names)[0] in Models(names);
  }

  /** Which error, exactly when. */
  lemma ResolveFails(checkpoint: string, root: string, entries: Option<map<string, Entry>>)
    ensures var found := Resolve(checkpoint, root, entries);
            && (checkpoint != "" ==> found == Found(checkpoint))
            && (found == NoRoot <==> checkpoint == "" && entries.None?)
            && (found == NoRuns <==> checkpoint == "" && entries.Some? && Directories(entries.value) == {})
            && (found == NoModels <==>
                 (checkpoint == "" && entries.Some? &&
                  exists run :: IsGreatest(run, Directories(entries.value)) && !HasModel(entries.value[run].names)))
  {
    hide IsGreatest, LatestRun, Models, HasModel, Sort;
    if entries.Some? && Directories(entries.value) != {} {
      var runs := Directories(entries.value);
      LatestRunIsLast(runs);
      GreatestIsLatest(runs);
      SomeModel(entries.value[LatestRun(runs)].names);
    } else if entries.Some? {
      assert forall run :: !IsGreatest(run, Directories(entries.value)) by { NoGreatest(); }
    }
  }

  lemma NoGreatest()
    ensures forall run :: !IsGreatest(run, {})
  {
  }

  /**
   What is found without a name: a model file of the last run, with the highest
   iteration there, so an unnumbered one only when no model of that run has a
   number; among equals the one listed last.
   */
  lemma ResolveChooses(root: string, entries: map<string, Entry>) returns (run: string, j: nat)
    requires Resolve("", root, Some(entries)).Found?
    ensures IsGreatest(run, Directories(entries))
    ensures var models := Models(entries[run].names);
            && IsLastHighest(models, j)
            && Resolve("", root, Some(entries)) == Found(root + "/" + run + "/" + models[j])
            && (Iteration(models[j]) == -1 ==> forall k :: 0 <= k < |models| ==> Iteration(models[k]) == -1)
  {
    var runs := Directories(entries);
    run := LatestRun(runs);
    GreatestIsLatest(runs);
    LatestRunIsLast(runs);
    var folder, models := root + "/" + run, Models(entries[run].names);
    var paths := InFolder(folder, models);
    assert Resolve("", root, Some(entries)) == Found(Sort(paths)[|paths| - 1]);
    j := LastOfSorted(paths);
    SameIterations(folder, models);
    hide Iteration, LatestRun, Sort, Resolve, Models, Directories, Less;
    assert IsLastHighest(models, j);
  }

  lemma SameIterations(folder: string, models: seq<string>)
    ensures forall k :: 0 <= k < |models| ==> Iteration(InFolder(folder, models)[k]) == Iteration(models[k]) >= -1
  {
    hide Iteration;
    forall k | 0 <= k < |models|
      ensures Iteration(InFolder(folder, models)[k]) == Iteration(models[k]) >= -1
    {
      FolderDoesNotMatter(folder, models[k]);
      NumberedPaths(models[k]);
    }
  }
}
