/** Lists of model names: trimmed, without blanks and duplicates, and the set operations on them. */
module ModelNames {
  import Text

  datatype Name = Name(text: string)
  const BLANK := Name("")

  function Trim(n: Name): Name {
    Name(Text.TrimSpace(n.text))
  }

  function Names(s: seq<Name>): set<Name> {
    set i | 0 <= i < |s| :: s[i]
  }

  function Normalize(s: seq<Name>): seq<Name> {
    if s == [] then []
    else
      var front, t := Normalize(s[..|s| - 1]), Trim(s[|s| - 1]);
      if t == BLANK || t in Names(front) then front else front + [t]
  }

  function Filter(s: seq<Name>, keep: set<Name>): seq<Name> {
    if s == [] then []
    else if s[|s| - 1] in keep then Filter(s[..|s| - 1], keep) + [s[|s| - 1]] else Filter(s[..|s| - 1], keep)
  }

  function Merge(base: seq<Name>, appended: seq<Name>): seq<Name> {
    var b := Normalize(base);
    b + Filter(Normalize(appended), Names(Normalize(appended)) - Names(b))
  }

  function Subtract(base: seq<Name>, removed: seq<Name>): seq<Name> {
    Filter(Normalize(base), Names(Normalize(base)) - Names(Normalize(removed)))
  }

  function Intersect(base: seq<Name>, allowed: seq<Name>): seq<Name> {
    Filter(Normalize(base), Names(Normalize(allowed)))
  }

  /** Selected additions win over removals of the same model. */
  function ApplySelected(origin: seq<Name>, add: seq<Name>, remove: seq<Name>): seq<Name> {
    var a := Normalize(add);
    Subtract(Merge(origin, a), Subtract(Normalize(remove), a))
  }

  // ---------------------------------------------------------------- clean lists

  predicate CleanName(n: Name) {
    n != BLANK && Trim(n) == n
  }

  ghost predicate Clean(s: seq<Name>) {
    && (forall i | 0 <= i < |s| :: CleanName(s[i]))
    && (forall i, j | 0 <= i < j < |s| :: s[i] != s[j])
  }

  lemma NamesMore(s: seq<Name>, n: Name)
    ensures Names(s + [n]) == Names(s) + {n}
  {
    var t := s + [n];
    forall x | x in Names(s) + {n} ensures x in Names(t) {
      if x in Names(s) {
        var i :| 0 <= i < |s| && s[i] == x;
        assert t[i] == x;
      } else {
        assert t[|s|] == x;
      }
    }
  }

  lemma {:induction false} NamesJoin(a: seq<Name>, b: seq<Name>)
    ensures Names(a + b) == Names(a) + Names(b)
    decreases |b|
  {
    if b == [] {
      assert a + b == a;
    } else {
      var front, last := b[..|b| - 1], b[|b| - 1];
      NamesJoin(a, front);
      NamesMore(front, last);
      NamesMore(a + front, last);
      assert b == front + [last] && a + b == a + front + [last];
    }
  }

  lemma CleanMore(s: seq<Name>, n: Name)
    requires Clean(s) && CleanName(n) && n !in Names(s)
    ensures Clean(s + [n])
  {
    forall i | 0 <= i < |s| ensures s[i] != n {
      assert s[i] in Names(s);
    }
  }

  lemma TrimTwice(n: Name)
    ensures Trim(Trim(n)) == Trim(n)
  {
    Text.TrimSpaceTrims(n.text);
  }

  lemma {:induction false} NormalizeCleans(s: seq<Name>)
    ensures Clean(Normalize(s))
    decreases |s|
  {
    if s != [] {
      var front, t := s[..|s| - 1], Trim(s[|s| - 1]);
      NormalizeCleans(front);
      TrimTwice(s[|s| - 1]);
      hide Trim, Clean;
      if t != BLANK && t !in Names(Normalize(front)) {
        CleanMore(Normalize(front), t);
      }
    }
  }

  /** Normalizing keeps exactly the trimmed names that are not blank. */
  lemma {:induction false} NormalizeNames(s: seq<Name>, n: Name)
    ensures n in Names(Normalize(s)) <==> n.text != "" && exists i :: 0 <= i < |s| && s[i].text != "" && Text.TrimSpace(s[i].text) == n.text
    decreases |s|
  {
    if s != [] {
      var m := |s| - 1;
      var front := s[..m];
      NormalizeNames(front, n);
      assert s == front + [s[m]];
      NamesMore(Normalize(front), Trim(s[m]));
      assert Text.TrimSpace("") == "";
      assert forall i | 0 <= i < m :: front[i] == s[i];
      hide Text.TrimSpace;
      if i :| 0 <= i < |s| && s[i].text != "" && Text.TrimSpace(s[i].text) == n.text {
        assert i < m ==> front[i] == s[i];
      }
    }
  }

  lemma {:induction false} NormalizeKeeps(s: seq<Name>)
    requires Clean(s)
    ensures Normalize(s) == s
    decreases |s|
  {
    hide Trim;
    if s != [] {
      var front, last := s[..|s| - 1], s[|s| - 1];
      NormalizeKeeps(front);
      assert s == front + [last];
      assert CleanName(last);
    }
  }

  lemma {:induction false} FilterNames(s: seq<Name>, keep: set<Name>)
    requires Clean(s)
    ensures Clean(Filter(s, keep)) && Names(Filter(s, keep)) == Names(s) * keep
    decreases |s|
  {
    if s != [] {
      var front, last := s[..|s| - 1], s[|s| - 1];
      assert s == front + [last];
      FilterNames(front, keep);
      NamesMore(front, last);
      assert last !in Names(front);
      if last in keep {
        NamesMore(Filter(front, keep), last);
        CleanMore(Filter(front, keep), last);
      }
    }
  }

  lemma MergeNames(base: seq<Name>, appended: seq<Name>)
    ensures Clean(Merge(base, appended))
    ensures Names(Merge(base, appended)) == Names(Normalize(base)) + Names(Normalize(appended))
    ensures Normalize(base) <= Merge(base, appended)
  {
    hide Normalize, Trim;
    var a, b := Normalize(appended), Normalize(base);
    NormalizeCleans(base);
    NormalizeCleans(appended);
    FilterNames(a, Names(a) - Names(b));
    var more := Filter(a, Names(a) - Names(b));
    NamesJoin(b, more);
    forall i, j | 0 <= i < |b| && 0 <= j < |more| ensures b[i] != more[j] {
      assert b[i] in Names(b) && more[j] in Names(more);
    }
  }

  lemma SubtractNames(base: seq<Name>, removed: seq<Name>)
    ensures Clean(Subtract(base, removed))
    ensures Names(Subtract(base, removed)) == Names(Normalize(base)) - Names(Normalize(removed))
  {
    hide Normalize, Trim;
    NormalizeCleans(base);
    FilterNames(Normalize(base), Names(Normalize(base)) - Names(Normalize(removed)));
  }

  lemma IntersectNames(base: seq<Name>, allowed: seq<Name>)
    ensures Clean(Intersect(base, allowed))
    ensures Names(Intersect(base, allowed)) == Names(Normalize(base)) * Names(Normalize(allowed))
  {
    hide Normalize, Trim;
    NormalizeCleans(base);
    FilterNames(Normalize(base), Names(Normalize(allowed)));
  }

  /** Selected changes give the models held or added, except those removed and not added. */
  lemma ApplySelectedNames(origin: seq<Name>, add: seq<Name>, remove: seq<Name>)
    ensures var next := ApplySelected(origin, add, remove);
            && Clean(next)
            && Names(next) == Names(Normalize(origin)) + Names(Normalize(add)) - (Names(Normalize(remove)) - Names(Normalize(add)))
  {
    hide Normalize, Trim;
    var a, r := Normalize(add), Normalize(remove);
    NormalizeCleans(add);
    NormalizeKeeps(a);
    NormalizeCleans(remove);
    NormalizeKeeps(r);
    MergeNames(origin, a);
    NormalizeKeeps(Merge(origin, a));
    SubtractNames(r, a);
    NormalizeKeeps(Subtract(r, a));
    SubtractNames(Merge(origin, a), Subtract(r, a));
  }

  lemma TakeOne(s: seq<Name>, i: nat, keep: set<Name>)
    requires Clean(s) && i < |s|
    ensures s[i] in Names(s) && s[i] !in Names(s[..i]) && Names(s[..i + 1]) == Names(s[..i]) + {s[i]}
    ensures Filter(s[..i + 1], keep) == if s[i] in keep then Filter(s[..i], keep) + [s[i]] else Filter(s[..i], keep)
  {
    assert s[..i + 1] == s[..i] + [s[i]] && s[..i + 1][..i] == s[..i];
    NamesMore(s[..i], s[i]);
  }

  /** The names seen, and the merged list, after `i` of the appended names. */
  function Seen(b: seq<Name>, more: seq<Name>, i: nat): set<Name>
    requires i <= |more|
  {
    Names(b) + Names(more[..i])
  }

  function MergedTo(b: seq<Name>, more: seq<Name>, i: nat): seq<Name>
    requires i <= |more|
  {
    b + Filter(more[..i], Names(more) - Names(b))
  }

  lemma MergeStart(b: seq<Name>, more: seq<Name>)
    ensures Seen(b, more, 0) == Names(b) && MergedTo(b, more, 0) == b
  {
  }

  lemma MergeStep(b: seq<Name>, more: seq<Name>, i: nat)
    requires Clean(more) && i < |more|
    ensures var m := more[i];
            && Seen(b, more, i + 1) == Seen(b, more, i) + {m}
            && MergedTo(b, more, i + 1) == if m in Seen(b, more, i) then MergedTo(b, more, i) else MergedTo(b, more, i) + [m]
  {
    hide Names, Filter, Clean;
    TakeOne(more, i, Names(more) - Names(b));
  }

  lemma MergeEnd(base: seq<Name>, appended: seq<Name>)
    ensures MergedTo(Normalize(base), Normalize(appended), |Normalize(appended)|) == Merge(base, appended)
  {
    hide Normalize, Filter, Names;
    var more := Normalize(appended);
    assert more[..|more|] == more;
  }

  method MergeLists(base: seq<Name>, appended: seq<Name>) returns (merged: seq<Name>)
    ensures merged == Merge(base, appended)
  {
    merged := Normalize(base);
    var seen := Names(merged);
    var more := Normalize(appended);
    ghost var b := merged;
    hide Normalize, Trim, Names, Filter, Clean, Seen, MergedTo, Merge;
    NormalizeCleans(appended);
    MergeStart(b, more);
    for i := 0 to |more|
      invariant seen == Seen(b, more, i) && merged == MergedTo(b, more, i)
    {
      var m := more[i];
      MergeStep(b, more, i);
      if m !in seen {
        seen := seen + {m};
        merged := merged + [m];
      }
    }
    MergeEnd(base, appended);
  }
}
