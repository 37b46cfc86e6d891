/**
  Reconciling a channel's models with its upstream: detecting what to add and remove, applying a
  selection, and when applying everything leaves nothing to detect.
 */
module UpstreamModels {
  import Text
  import D = DelimitedText
  import opened ModelNames

  const COMMA: char := ','
  const PATTERN := "regex:"

  predicate IsPattern(entry: Name) {
    PATTERN <= entry.text
  }

  /** An ignore entry is a pattern or a name; `matches` stands for the regular expression engine. */
  predicate Ignores(matches: (Name, Name) -> bool, entry: Name, model: Name) {
    if IsPattern(entry) then matches(entry, model) else entry == model
  }

  predicate IgnoredBy(matches: (Name, Name) -> bool, entries: set<Name>, model: Name) {
    exists e | e in entries :: Ignores(matches, e, model)
  }

  // ---------------------------------------------------------------- detecting, on sets

  function ToAdd(local: set<Name>, upstream: set<Name>, ignored: set<Name>, mapping: map<Name, Name>, matches: (Name, Name) -> bool): set<Name> {
    set m | m in upstream && m !in local && m !in mapping.Values && !IgnoredBy(matches, ignored, m)
  }

  function ToRemove(local: set<Name>, upstream: set<Name>, mapping: map<Name, Name>): set<Name> {
    local - mapping.Keys - upstream
  }

  /** Every model kept off the list by an ignore entry is kept off by one that is not itself being added. */
  ghost predicate StillIgnored(local: set<Name>, upstream: set<Name>, ignored: set<Name>, mapping: map<Name, Name>,
                               matches: (Name, Name) -> bool, added: set<Name>)
  {
    forall m | m in upstream && m !in local && m !in mapping.Values && IgnoredBy(matches, ignored, m) ::
      IgnoredBy(matches, ignored - added, m)
  }

  /** Applying all that was detected leaves nothing to remove, and nothing to add exactly when ignoring still works. */
  lemma Settles(local: set<Name>, upstream: set<Name>, ignored: set<Name>, mapping: map<Name, Name>, matches: (Name, Name) -> bool)
    ensures var add, remove := ToAdd(local, upstream, ignored, mapping, matches), ToRemove(local, upstream, mapping);
            var local' := local + add - (remove - add);
            && ToRemove(local', upstream, mapping) == {}
            && (ToAdd(local', upstream, ignored - add, mapping, matches) == {} <==> StillIgnored(local, upstream, ignored, mapping, matches, add))
            && local * mapping.Keys <= local'
  {
    var add, remove := ToAdd(local, upstream, ignored, mapping, matches), ToRemove(local, upstream, mapping);
    var local' := local + add - (remove - add);
    var again := ToAdd(local', upstream, ignored - add, mapping, matches);
    hide IgnoredBy;
    if m :| m in again {
      assert m !in add && m !in local && IgnoredBy(matches, ignored, m);
    }
    if again == {} {
      forall m | m in upstream && m !in local && m !in mapping.Values && IgnoredBy(matches, ignored, m)
        ensures IgnoredBy(matches, ignored - add, m)
      {
        assert m !in again && m !in local';
      }
    }
  }

  // ---------------------------------------------------------------- detecting, on lists

  function Detect(local: seq<Name>, upstream: seq<Name>, ignored: seq<Name>, mapping: map<Name, Name>, matches: (Name, Name) -> bool)
    : (seq<Name>, seq<Name>)
  {
    var l, u, i := Normalize(local), Normalize(upstream), Normalize(ignored);
    (Normalize(Filter(u, ToAdd(Names(l), Names(u), Names(i), mapping, matches))),
     Normalize(Filter(l, ToRemove(Names(l), Names(u), mapping))))
  }

  lemma DetectNames(local: seq<Name>, upstream: seq<Name>, ignored: seq<Name>, mapping: map<Name, Name>, matches: (Name, Name) -> bool)
    ensures var (add, remove) := Detect(local, upstream, ignored, mapping, matches);
            var l, u, i := Names(Normalize(local)), Names(Normalize(upstream)), Names(Normalize(ignored));
            && Clean(add) && Names(add) == ToAdd(l, u, i, mapping, matches)
            && Clean(remove) && Names(remove) == ToRemove(l, u, mapping)
  {
    hide Normalize, IgnoredBy;
    var l, u, i := Normalize(local), Normalize(upstream), Normalize(ignored);
    NormalizeCleans(local);
    NormalizeCleans(upstream);
    var add, remove := ToAdd(Names(l), Names(u), Names(i), mapping, matches), ToRemove(Names(l), Names(u), mapping);
    FilterNames(u, add);
    FilterNames(l, remove);
    NormalizeKeeps(Filter(u, add));
    NormalizeKeeps(Filter(l, remove));
    assert Names(u) * add == add && Names(l) * remove == remove;
  }

  // ---------------------------------------------------------------- the channel's model list as text

  function Texts(s: seq<Name>): seq<string> {
    seq(|s|, i requires 0 <= i < |s| => s[i].text)
  }

  function Present(parts: seq<string>): seq<Name> {
    if parts == [] then []
    else
      var front, n := Present(parts[..|parts| - 1]), Name(Text.TrimSpace(parts[|parts| - 1]));
      if n == BLANK then front else front + [n]
  }

  function GetModels(models: string): seq<Name> {
    if models == "" then [] else Present(D.Split(D.Trim(models, COMMA), COMMA))
  }

  ghost predicate CommaFree(s: set<Name>) {
    forall n | n in s :: D.Free(n.text, COMMA)
  }

  lemma {:induction false} TrimLeftFree(s: string)
    requires D.Free(s, COMMA)
    ensures D.Free(Text.TrimLeft(s), COMMA)
  {
    hide Text.IsSpace;
    if s != [] && Text.IsSpace(s[0]) {
      TrimLeftFree(s[1..]);
    }
  }

  lemma {:induction false} TrimRightFree(s: string)
    requires D.Free(s, COMMA)
    ensures D.Free(Text.TrimRight(s), COMMA)
  {
    hide Text.IsSpace;
    if s != [] && Text.IsSpace(s[|s| - 1]) {
      TrimRightFree(s[..|s| - 1]);
    }
  }

  lemma {:induction false} PresentFree(parts: seq<string>)
    requires D.AllFree(parts, COMMA)
    ensures CommaFree(Names(Present(parts)))
    decreases |parts|
  {
    if parts != [] {
      var front, last := parts[..|parts| - 1], parts[|parts| - 1];
      PresentFree(front);
      TrimLeftFree(last);
      TrimRightFree(Text.TrimLeft(last));
      hide D.Free, Text.TrimSpace;
      NamesMore(Present(front), Name(Text.TrimSpace(last)));
    }
  }

  lemma {:induction false} NormalizeFree(s: seq<Name>)
    requires CommaFree(Names(s))
    ensures CommaFree(Names(Normalize(s)))
    decreases |s|
  {
    if s != [] {
      var front, last := s[..|s| - 1], s[|s| - 1];
      assert s == front + [last];
      NamesMore(front, last);
      assert D.Free(last.text, COMMA);
      NormalizeFree(front);
      TrimLeftFree(last.text);
      TrimRightFree(Text.TrimLeft(last.text));
      hide D.Free, Text.TrimSpace;
      NamesMore(Normalize(front), Trim(last));
    }
  }

  /** No name read from the list holds a comma. */
  lemma ModelsFree(models: string)
    ensures CommaFree(Names(Normalize(GetModels(models))))
  {
    if models != "" {
      var t := D.Trim(models, COMMA);
      D.SplitPieces(t, COMMA);
      PresentFree(D.Split(t, COMMA));
    }
    NormalizeFree(GetModels(models));
  }

  lemma {:induction false} PresentClean(s: seq<Name>)
    requires Clean(s)
    ensures Present(Texts(s)) == s
    decreases |s|
  {
    if s != [] {
      var front, last := s[..|s| - 1], s[|s| - 1];
      PresentClean(front);
      assert Texts(s)[..|s| - 1] == Texts(front);
      assert CleanName(last);
      hide Text.TrimSpace;
      assert s == front + [last];
    }
  }

  /** A clean list without commas is read back as it was written. */
  lemma ModelsReadBack(s: seq<Name>)
    requires Clean(s) && CommaFree(Names(s))
    ensures GetModels(D.Join(Texts(s), COMMA)) == s
  {
    var parts := Texts(s);
    if s != [] {
      forall i | 0 <= i < |parts| ensures D.Free(parts[i], COMMA) && parts[i] != "" {
        assert s[i] in Names(s) && CleanName(s[i]) && s[i] == Name(s[i].text);
      }
      D.JoinEdges(parts, COMMA);
      D.StoredIffStorable(parts, COMMA);
      PresentClean(s);
    }
  }

  // ---------------------------------------------------------------- applying a selection

  /** What a channel stores: its models and the outcome of the last detection. */
  datatype Stored = Stored(models: string, ignored: seq<Name>, detected: seq<Name>, removed: seq<Name>)

  function Added(s: Stored, add: seq<Name>): seq<Name> {
    Intersect(add, Normalize(s.detected))
  }

  function Removed(s: Stored, add: seq<Name>, remove: seq<Name>): seq<Name> {
    Subtract(Intersect(remove, Normalize(s.removed)), Added(s, add))
  }

  function NextModels(s: Stored, add: seq<Name>, remove: seq<Name>): seq<Name> {
    ApplySelected(Normalize(GetModels(s.models)), Added(s, add), Removed(s, add, remove))
  }

  function NextIgnored(s: Stored, add: seq<Name>, ignore: seq<Name>): seq<Name> {
    var merged := Merge(s.ignored, Intersect(ignore, Normalize(s.detected)));
    if Added(s, add) == [] then merged else Subtract(merged, Added(s, add))
  }

  function Applied(s: Stored, add: seq<Name>, ignore: seq<Name>, remove: seq<Name>): Stored {
    var next := NextModels(s, add, remove);
    Stored(
      if Normalize(GetModels(s.models)) == next then s.models else D.Join(Texts(next), COMMA),
      NextIgnored(s, add, ignore),
      Subtract(Normalize(s.detected), Added(s, add) + Intersect(ignore, Normalize(s.detected))),
      Subtract(Normalize(s.removed), Removed(s, add, remove)))
  }

  class Channel {
    var models: string
    var ignored: seq<Name>
    var detected: seq<Name>
    var removed: seq<Name>

    ghost function View(): Stored
      reads this
    {
      Stored(models, ignored, detected, removed)
    }

    constructor (models: string)
      ensures View() == Stored(models, [], [], [])
    {
      this.models, ignored, detected, removed := models, [], [], [];
    }

    /** Applies the part of a selection that is still pending and keeps the rest pending. */
    method ApplyUpdates(add: seq<Name>, ignore: seq<Name>, remove: seq<Name>)
      returns (addedNow: seq<Name>, removedNow: seq<Name>, changed: bool)
      modifies this
      ensures View() == Applied(old(View()), add, ignore, remove)
      ensures addedNow == Added(old(View()), add) && removedNow == Removed(old(View()), add, remove)
      ensures !changed ==> models == old(models)
    {
      hide Normalize, Intersect, Subtract, Merge, ApplySelected, GetModels;
      var pendingAdd, pendingRemove := Normalize(detected), Normalize(removed);
      addedNow := Intersect(add, pendingAdd);
      var ignoredNow := Intersect(ignore, pendingAdd);
      removedNow := Intersect(remove, pendingRemove);
      removedNow := Subtract(removedNow, addedNow);
      var origin := Normalize(GetModels(models));
      var next := ApplySelected(origin, addedNow, removedNow);
      changed := origin != next;
      if changed {
        models := D.Join(Texts(next), COMMA);
      }
      ignored := MergeLists(ignored, ignoredNow);
      if |addedNow| > 0 {
        ignored := Subtract(ignored, addedNow);
      }
      detected := Subtract(pendingAdd, addedNow + ignoredNow);
      removed := Subtract(pendingRemove, removedNow);
    }
  }

  /** Whatever is selected: only pending models are added or removed, and none added stays ignored. */
  lemma SelectionSound(s: Stored, add: seq<Name>, ignore: seq<Name>, remove: seq<Name>)
    ensures var next := NextModels(s, add, remove);
            && Names(Added(s, add)) <= Names(Normalize(s.detected))
            && Names(Removed(s, add, remove)) <= Names(Normalize(s.removed))
            && Clean(next) && Names(next) == Names(Normalize(GetModels(s.models))) + Names(Added(s, add)) - Names(Removed(s, add, remove))
            && Names(NextIgnored(s, add, ignore)) !! Names(Added(s, add))
  {
    hide Normalize, GetModels;
    var pending, origin := Normalize(s.detected), Normalize(GetModels(s.models));
    NormalizeCleans(s.detected);
    NormalizeKeeps(pending);
    NormalizeCleans(s.removed);
    NormalizeKeeps(Normalize(s.removed));
    NormalizeCleans(GetModels(s.models));
    NormalizeKeeps(origin);
    hide Clean, Names, Intersect, Subtract, Merge, ApplySelected;
    var a, r := Added(s, add), Removed(s, add, remove);
    IntersectNames(add, pending);
    NormalizeKeeps(a);
    IntersectNames(remove, Normalize(s.removed));
    NormalizeKeeps(Intersect(remove, Normalize(s.removed)));
    SubtractNames(Intersect(remove, Normalize(s.removed)), a);
    NormalizeKeeps(r);
    ApplySelectedNames(origin, a, r);
    var merged := Merge(s.ignored, Intersect(ignore, pending));
    SubtractNames(merged, a);
    assert a == [] ==> Names(a) == {} by {
      NoNames();
    }
  }

  lemma NoNames()
    ensures Names([]) == {}
  {
  }

  // ---------------------------------------------------------------- applying all that was detected

  function Detected(models: string, upstream: seq<Name>, ignored: seq<Name>, mapping: map<Name, Name>, matches: (Name, Name) -> bool): Stored {
    var (add, remove) := Detect(GetModels(models), upstream, ignored, mapping, matches);
    Stored(models, ignored, add, remove)
  }

  lemma {:induction false} IntersectAll(s: seq<Name>)
    requires Clean(s)
    ensures Intersect(s, s) == s
  {
    NormalizeKeeps(s);
    FilterAll(s, Names(s));
  }

  lemma {:induction false} FilterAll(s: seq<Name>, keep: set<Name>)
    requires Names(s) <= keep
    ensures Filter(s, keep) == s
    decreases |s|
  {
    if s != [] {
      var front, last := s[..|s| - 1], s[|s| - 1];
      assert s == front + [last];
      NamesMore(front, last);
      FilterAll(front, keep);
    }
  }

  /** The channel's models after a selection, as the next detection reads them. */
  lemma NextLocal(s: Stored, add: seq<Name>, ignore: seq<Name>, remove: seq<Name>)
    ensures var next, read := NextModels(s, add, remove), Normalize(GetModels(Applied(s, add, ignore, remove).models));
            && CommaFree(Names(read))
            && (CommaFree(Names(Added(s, add))) ==> read == next)
  {
    hide Normalize, GetModels, CommaFree;
    ModelsFree(Applied(s, add, ignore, remove).models);
    ModelsFree(s.models);
    SelectionSound(s, add, ignore, remove);
    var next := NextModels(s, add, remove);
    if CommaFree(Names(Added(s, add))) {
      FreeParts(Names(next), Names(Normalize(GetModels(s.models))), Names(Added(s, add)));
      ModelsReadBack(next);
      NormalizeKeeps(next);
    }
  }

  lemma FreeParts(s: set<Name>, a: set<Name>, b: set<Name>)
    requires CommaFree(a) && CommaFree(b) && s <= a + b
    ensures CommaFree(s)
  {
  }

  lemma EmptyNames(s: seq<Name>)
    ensures Names(s) == {} <==> s == []
  {
    if s != [] {
      assert s[0] in Names(s);
    }
  }

  lemma AddsAll(s: Stored)
    requires Clean(s.detected) && Clean(s.removed)
    ensures Added(s, s.detected) == s.detected
    ensures Names(Removed(s, s.detected, s.removed)) == Names(s.removed) - Names(s.detected)
  {
    hide Normalize, Clean, Intersect, Subtract, Names;
    NormalizeKeeps(s.detected);
    NormalizeKeeps(s.removed);
    IntersectAll(s.detected);
    IntersectAll(s.removed);
    SubtractNames(s.removed, s.detected);
  }

  lemma IgnoredAll(s: Stored)
    requires Clean(s.detected)
    ensures var next := NextIgnored(s, s.detected, []);
            Normalize(next) == next && Names(next) == Names(Normalize(s.ignored)) - Names(s.detected)
  {
    NormalizeKeeps(s.detected);
    IntersectAll(s.detected);
    assert Intersect([], Normalize(s.detected)) == [];
    EmptyNames(s.detected);
    hide Normalize, Clean, Intersect, Subtract, Names, Merge;
    MergeNames(s.ignored, []);
    NormalizeNone();
    var merged := Merge(s.ignored, []);
    NormalizeKeeps(merged);
    SubtractNames(merged, s.detected);
    NormalizeKeeps(Subtract(merged, s.detected));
  }

  lemma NormalizeNone()
    ensures Normalize([]) == [] && Names([]) == {}
  {
  }

  /** An added name with a comma is not found among the models read back, so it is detected again. */
  lemma CommaComesBack(read: set<Name>, local: set<Name>, upstream: set<Name>, ignored: set<Name>, mapping: map<Name, Name>, matches: (Name, Name) -> bool)
    requires CommaFree(read) && !CommaFree(ToAdd(local, upstream, ignored, mapping, matches))
    ensures ToAdd(read, upstream, ignored - ToAdd(local, upstream, ignored, mapping, matches), mapping, matches) != {}
  {
    var add := ToAdd(local, upstream, ignored, mapping, matches);
    var m :| m in add && !D.Free(m.text, COMMA);
    assert m !in read;
    assert !IgnoredBy(matches, ignored - add, m);
    assert m in ToAdd(read, upstream, ignored - add, mapping, matches);
  }

  /**
    Applying everything detected and detecting again finds nothing, exactly when no added name
    holds a comma and no ignore pattern still needed is itself added as a model.
   */
  lemma ReconcilesIff(models: string, upstream: seq<Name>, ignored: seq<Name>, mapping: map<Name, Name>, matches: (Name, Name) -> bool)
    ensures var s := Detected(models, upstream, ignored, mapping, matches);
            var s' := Applied(s, s.detected, [], s.removed);
            Detect(GetModels(s'.models), upstream, s'.ignored, mapping, matches) == ([], [])
            <==> && CommaFree(Names(s.detected))
                 && StillIgnored(Names(Normalize(GetModels(models))), Names(Normalize(upstream)), Names(Normalize(ignored)),
                                 mapping, matches, Names(s.detected))
  {
    var s := Detected(models, upstream, ignored, mapping, matches);
    var s' := Applied(s, s.detected, [], s.removed);
    DetectNames(GetModels(models), upstream, ignored, mapping, matches);
    AddsAll(s);
    IgnoredAll(s);
    SelectionSound(s, s.detected, [], s.removed);
    NextLocal(s, s.detected, [], s.removed);
    DetectNames(GetModels(s'.models), upstream, s'.ignored, mapping, matches);
    hide Normalize, GetModels, CommaFree, Clean, Names, Detect, NextModels, NextIgnored, ToAdd, ToRemove, StillIgnored;
    var again := Detect(GetModels(s'.models), upstream, s'.ignored, mapping, matches);
    EmptyNames(again.0);
    EmptyNames(again.1);
    var l, u, i := Names(Normalize(GetModels(models))), Names(Normalize(upstream)), Names(Normalize(ignored));
    if CommaFree(Names(s.detected)) {
      Settles(l, u, i, mapping, matches);
    } else {
      CommaComesBack(Names(Normalize(GetModels(s'.models))), l, u, i, mapping, matches);
    }
  }

  /** Redirect sources survive: being absent upstream does not get an alias removed. */
  lemma RedirectSourcesStay(models: string, upstream: seq<Name>, ignored: seq<Name>, mapping: map<Name, Name>,
                            matches: (Name, Name) -> bool, add: seq<Name>, remove: seq<Name>)
    ensures var s := Detected(models, upstream, ignored, mapping, matches);
            Names(Normalize(GetModels(models))) * mapping.Keys <= Names(NextModels(s, add, remove))
  {
    var s := Detected(models, upstream, ignored, mapping, matches);
    DetectNames(GetModels(models), upstream, ignored, mapping, matches);
    NormalizeKeeps(s.removed);
    SelectionSound(s, add, [], remove);
    hide Normalize, GetModels, Clean, Names, Detect, NextModels, NextIgnored, Removed, Added;
  }

  /** What a caller can see at once: unless a detected name is itself an ignore pattern, ignoring still works. */
  lemma NoPatternStillIgnored(local: set<Name>, upstream: set<Name>, ignored: set<Name>, mapping: map<Name, Name>, matches: (Name, Name) -> bool)
    ensures var add := ToAdd(local, upstream, ignored, mapping, matches);
            (forall m | m in add :: !IsPattern(m)) ==> StillIgnored(local, upstream, ignored, mapping, matches, add)
  {
    var add := ToAdd(local, upstream, ignored, mapping, matches);
    hide IsPattern;
    if forall m | m in add :: !IsPattern(m) {
      forall m | m in upstream && m !in local && m !in mapping.Values && IgnoredBy(matches, ignored, m)
        ensures IgnoredBy(matches, ignored - add, m)
      {
        var e :| e in ignored && Ignores(matches, e, m);
        assert e !in add;
      }
    }
  }

  /** So applying everything settles whenever no detected name is a pattern or holds a comma. */
  lemma PlainNamesReconcile(models: string, upstream: seq<Name>, ignored: seq<Name>, mapping: map<Name, Name>, matches: (Name, Name) -> bool)
    requires var s := Detected(models, upstream, ignored, mapping, matches);
             CommaFree(Names(s.detected)) && forall m | m in Names(s.detected) :: !IsPattern(m)
    ensures var s := Detected(models, upstream, ignored, mapping, matches);
            var s' := Applied(s, s.detected, [], s.removed);
            Detect(GetModels(s'.models), upstream, s'.ignored, mapping, matches) == ([], [])
  {
    ReconcilesIff(models, upstream, ignored, mapping, matches);
    DetectNames(GetModels(models), upstream, ignored, mapping, matches);
    hide Normalize, GetModels, CommaFree, Names, Detect, Applied, ToAdd, StillIgnored, IsPattern;
    NoPatternStillIgnored(Names(Normalize(GetModels(models))), Names(Normalize(upstream)), Names(Normalize(ignored)), mapping, matches);
  }

  lemma OnlyName(s: seq<Name>, x: Name)
    requires Clean(s) && Names(s) == {x}
    ensures s == [x]
  {
    EmptyNames(s);
    EndsDiffer(s);
    assert s[0] in Names(s) && s[|s| - 1] in Names(s);
  }

  lemma EndsDiffer(s: seq<Name>)
    requires Clean(s)
    ensures |s| > 1 ==> s[0] != s[|s| - 1]
  {
  }

  lemma ListedNames(a: Name, b: Name)
    ensures Names([a]) == {a} && Names([a, b]) == {a, b}
  {
    assert [a][0] == a && [a, b][0] == a && [a, b][1] == b;
  }

  lemma PatternSets(pattern: Name, model: Name, matches: (Name, Name) -> bool)
    requires IsPattern(pattern) && matches(pattern, model) && !matches(pattern, pattern) && pattern != model
    ensures ToAdd({}, {pattern, model}, {pattern}, map[], matches) == {pattern}
    ensures ToAdd({pattern}, {pattern, model}, {}, map[], matches) == {model}
  {
    hide IsPattern;
    assert Ignores(matches, pattern, model) && !Ignores(matches, pattern, pattern);
  }

  lemma CleanPair(a: Name, b: Name)
    requires CleanName(a) && CleanName(b) && a != b
    ensures Normalize([a]) == [a] && Normalize([a, b]) == [a, b] && Normalize(GetModels("")) == []
    ensures Names([a]) == {a} && Names([a, b]) == {a, b} && Names([]) == {}
  {
    assert GetModels("") == [];
    NormalizeNone();
    ListedNames(a, b);
    assert Clean([a]) && Clean([a, b]);
    hide CleanName, Clean, Normalize, Names, GetModels;
    NormalizeKeeps([a]);
    NormalizeKeeps([a, b]);
  }

  /** The first detection finds the model named like the pattern, and nothing to remove. */
  lemma PatternDetected(pattern: Name, model: Name, matches: (Name, Name) -> bool)
    requires IsPattern(pattern) && matches(pattern, model) && !matches(pattern, pattern) && pattern != model
    requires CleanName(pattern) && CleanName(model)
    ensures var s := Detected("", [pattern, model], [pattern], map[], matches);
            s.detected == [pattern] && s.removed == [] && Clean(s.detected) && Clean(s.removed)
  {
    hide CleanName, Normalize, GetModels, IsPattern, ToAdd, Names, Clean;
    CleanPair(pattern, model);
    PatternSets(pattern, model, matches);
    DetectNames(GetModels(""), [pattern, model], [pattern], map[], matches);
    var s := Detected("", [pattern, model], [pattern], map[], matches);
    OnlyName(s.detected, pattern);
    EmptyNames(s.removed);
  }

  /** What applying that leaves to the next detection: the added model, and an empty ignore list. */
  lemma PatternApplied(s: Stored, pattern: Name)
    requires s == Stored("", [pattern], [pattern], []) && Clean([pattern]) && Clean([]) && D.Free(pattern.text, COMMA)
    ensures var s' := Applied(s, s.detected, [], s.removed);
            && Names(Normalize(GetModels(s'.models))) == {pattern}
            && Names(Normalize(s'.ignored)) == {}
  {
    ListedNames(pattern, pattern);
    NormalizeKeeps([pattern]);
    NormalizeKeeps([]);
    assert GetModels("") == [] && Names([]) == {};
    assert CommaFree({pattern});
    hide Normalize, GetModels, NextModels, NextIgnored, Clean, Names, Added, Removed, CommaFree;
    AddsAll(s);
    IgnoredAll(s);
    SelectionSound(s, s.detected, [], s.removed);
    NextLocal(s, s.detected, [], s.removed);
  }

  /**
    A channel without models that ignores by one pattern.  Its upstream offers a model named like
    the pattern; adding it drops the pattern, and what the pattern hid is detected next.
   */
  lemma AddedPatternReopens(pattern: Name, model: Name, matches: (Name, Name) -> bool)
    requires IsPattern(pattern) && matches(pattern, model) && !matches(pattern, pattern) && pattern != model
    requires CleanName(pattern) && CleanName(model) && D.Free(pattern.text, COMMA)
    ensures var upstream := [pattern, model];
            var s := Detected("", upstream, [pattern], map[], matches);
            var s' := Applied(s, s.detected, [], s.removed);
            && s.detected == [pattern]
            && Detect(GetModels(s'.models), upstream, s'.ignored, map[], matches) == ([model], [])
  {
    hide CleanName, Normalize, GetModels, IsPattern, ToAdd, Names, Clean, Applied;
    var upstream := [pattern, model];
    PatternDetected(pattern, model, matches);
    CleanPair(pattern, model);
    PatternSets(pattern, model, matches);
    var s := Detected("", upstream, [pattern], map[], matches);
    PatternApplied(s, pattern);
    var s' := Applied(s, s.detected, [], s.removed);
    DetectNames(GetModels(s'.models), upstream, s'.ignored, map[], matches);
    var again := Detect(GetModels(s'.models), upstream, s'.ignored, map[], matches);
    OnlyName(again.0, model);
    EmptyNames(again.1);
  }

  // ---------------------------------------------------------------- detection and selection, name by name

  /**
    A model is to be added exactly when the upstream has it, the channel does not, no redirect leads
    to it and no ignore entry, by pattern or by name, matches it; it is to be removed exactly when
    the channel has it, the upstream does not and it is no redirect source.
   */
  lemma DetectExact(local: seq<Name>, upstream: seq<Name>, ignored: seq<Name>, mapping: map<Name, Name>, matches: (Name, Name) -> bool, m: Name)
    ensures var (add, remove) := Detect(local, upstream, ignored, mapping, matches);
            && Clean(add) && Clean(remove)
            && (m in Names(add) <==>
                  && m in Names(Normalize(upstream)) && m !in Names(Normalize(local))
                  && (forall s | s in mapping :: mapping[s] != m)
                  && (forall e | e in Names(Normalize(ignored)) :: if "regex:" <= e.text then !matches(e, m) else e != m))
            && (m in Names(remove) <==> m in Names(Normalize(local)) && m !in Names(Normalize(upstream)) && m !in mapping)
  {
    DetectNames(local, upstream, ignored, mapping, matches);
    hide Detect, Normalize, Names, Clean;
  }

  /** What a selection does to each list: only pending models count, and what is neither added, ignored nor removed stays pending. */
  lemma SelectionExact(s: Stored, add: seq<Name>, ignore: seq<Name>, remove: seq<Name>)
    ensures var s' := Applied(s, add, ignore, remove);
            var d, r, i := Names(Normalize(s.detected)), Names(Normalize(s.removed)), Names(Normalize(s.ignored));
            var adds, ignores := Names(Normalize(add)) * d, Names(Normalize(ignore)) * d;
            && Names(Added(s, add)) == adds
            && Names(Removed(s, add, remove)) == Names(Normalize(remove)) * r - adds
            && Names(s'.ignored) == i + ignores - adds
            && Names(s'.detected) == d - adds - ignores
            && Names(s'.removed) == r - Names(Removed(s, add, remove))
  {
    hide Normalize, GetModels, Clean, Names, Intersect, Subtract, Merge, ApplySelected;
    var d, r := Normalize(s.detected), Normalize(s.removed);
    NormalizeCleans(s.detected);
    NormalizeKeeps(d);
    NormalizeCleans(s.removed);
    NormalizeKeeps(r);
    var a, g := Added(s, add), Intersect(ignore, d);
    IntersectNames(add, d);
    NormalizeKeeps(a);
    IntersectNames(ignore, d);
    NormalizeKeeps(g);
    IntersectNames(remove, r);
    NormalizeKeeps(Intersect(remove, r));
    SubtractNames(Intersect(remove, r), a);
    NormalizeKeeps(Removed(s, add, remove));
    MergeNames(s.ignored, g);
    NormalizeKeeps(Merge(s.ignored, g));
    SubtractNames(Merge(s.ignored, g), a);
    EmptyNames(a);
    SubtractNames(r, Removed(s, add, remove));
    JoinedNames(a, g);
    SubtractNames(d, a + g);
  }

  lemma JoinedNames(a: seq<Name>, b: seq<Name>)
    requires Clean(a) && Clean(b)
    ensures Names(Normalize(a + b)) == Names(a) + Names(b)
  {
    NamesJoin(a, b);
    hide Normalize;
    forall n ensures n in Names(Normalize(a + b)) <==> n in Names(a + b) {
      NormalizeNames(a + b, n);
      assert forall i | 0 <= i < |a + b| :: CleanName((a + b)[i]);
      if n in Names(a + b) {
        var i :| 0 <= i < |a + b| && (a + b)[i] == n;
      }
      if n in Names(Normalize(a + b)) {
        var i :| 0 <= i < |a + b| && (a + b)[i].text != "" && Text.TrimSpace((a + b)[i].text) == n.text;
        assert (a + b)[i] == n;
      }
    }
  }
}
