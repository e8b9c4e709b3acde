/** The bounded set of closed sessions: the entries kept are always the greatest ones. */
module TerminalIndex {
  import opened Wrappers

  const MAX_TERMINAL_SESSIONS: nat := 4096

  /** When a session closed, and which; ordered by time and then by id. */
  datatype Entry = Entry(at: U64, id: nat)

  predicate Less(a: Entry, b: Entry) {
    a.at < b.at || (a.at == b.at && a.id < b.id)
  }

  /** The order is total and strict: of two entries exactly one is less, or they are the same. */
  lemma OrderIsTotal(a: Entry, b: Entry, c: Entry)
    ensures !Less(a, a) && (Less(a, b) ==> !Less(b, a)) && (a != b ==> Less(a, b) || Less(b, a))
    ensures Less(a, b) && Less(b, c) ==> Less(a, c)
    ensures a.at < b.at ==> Less(a, b)
  {
  }

  predicate IsLeast(e: Entry, s: set<Entry>) {
    e in s && forall x | x in s && x != e :: Less(e, x)
  }

  /** `kept` are the greatest entries of `s`, as many as the bound allows. */
  ghost predicate AreNewest(kept: set<Entry>, s: set<Entry>) {
    && kept <= s
    && |kept| == Min(|s|, MAX_TERMINAL_SESSIONS)
    && forall a, b | a in kept && b in s - kept :: Less(b, a)
  }

  lemma {:induction false} LeastExists(s: set<Entry>)
    requires s != {}
    ensures exists e :: IsLeast(e, s)
    decreases |s|
  {
    var x :| x in s;
    if s == {x} {
      assert IsLeast(x, s);
    } else {
      var rest := s - {x};
      assert s == rest + {x};
      LeastExists(rest);
      var e :| IsLeast(e, rest);
      if Less(x, e) {
        assert IsLeast(x, s);
      } else {
        assert IsLeast(e, s);
      }
    }
  }

  /** At most one set of entries is the newest. */
  lemma NewestIsUnique(a: set<Entry>, b: set<Entry>, s: set<Entry>)
    requires AreNewest(a, s) && AreNewest(b, s)
    ensures a == b
  {
    if a != b {
      var x, y := Differ(a, b);
      KeptIsNewer(b, s, y, x);
      KeptIsNewer(a, s, x, y);
    }
  }

  lemma KeptIsNewer(kept: set<Entry>, s: set<Entry>, x: Entry, y: Entry)
    requires AreNewest(kept, s) && x in kept && y in s && y !in kept
    ensures Less(y, x)
  {
    assert y in s - kept;
  }

  lemma Differ(a: set<Entry>, b: set<Entry>) returns (x: Entry, y: Entry)
    requires |a| == |b| && a != b
    ensures x in a && x !in b && y in b && y !in a
  {
    if a <= b {
      SameSize(a, b);
    }
    if b <= a {
      SameSize(b, a);
    }
    x :| x in a && x !in b;
    y :| y in b && y !in a;
  }

  lemma SameSize(a: set<Entry>, b: set<Entry>)
    requires a <= b && |a| == |b|
    ensures a == b
  {
    var rest := b - a;
    assert b == a + rest && |b| == |a| + |rest|;
  }

  /** Dropping the least entry of an overfull set still keeps the newest of the whole. */
  lemma DropLeast(s: set<Entry>, whole: set<Entry>, e: Entry)
    requires IsLeast(e, s) && s <= whole && |s| > MAX_TERMINAL_SESSIONS
    requires forall a, b | a in s && b in whole - s :: Less(b, a)
    ensures |s - {e}| == |s| - 1
    ensures forall a, b | a in s - {e} && b in whole - (s - {e}) :: Less(b, a)
  {
  }

  /** Keeping the newest after every insertion is keeping the newest of everything. */
  lemma NewestComposes(kept: set<Entry>, s: set<Entry>, x: Entry, next: set<Entry>)
    requires AreNewest(kept, s) && x !in s && AreNewest(next, kept + {x})
    ensures AreNewest(next, s + {x})
  {
    assert |kept + {x}| == |kept| + 1 && |s + {x}| == |s| + 1;
    if |s| <= MAX_TERMINAL_SESSIONS {
      SameSize(kept, s);
    } else {
      var gone := kept + {x} - next;
      assert |kept + {x}| == |next| + |gone| by {
        assert kept + {x} == next + gone;
      }
      forall a, b | a in next && b in s + {x} - next ensures Less(b, a) {
        if b !in kept + {x} && a == x {
          assert gone != {};
          var c :| c in gone;
          assert Less(c, x) && Less(b, c);
        }
      }
    }
  }

  /** Everything that is not kept fits, so nothing is dropped below the bound. */
  lemma SmallIsKept(s: set<Entry>)
    requires |s| <= MAX_TERMINAL_SESSIONS
    ensures AreNewest(s, s)
  {
  }

  ghost function Newest(s: set<Entry>): (kept: set<Entry>)
    ensures AreNewest(kept, s)
  {
    NewestExists(s, s);
    var kept :| AreNewest(kept, s);
    kept
  }

  lemma {:induction false} NewestExists(s: set<Entry>, whole: set<Entry>)
    requires s <= whole && |s| >= Min(|whole|, MAX_TERMINAL_SESSIONS)
    requires forall a, b | a in s && b in whole - s :: Less(b, a)
    ensures exists kept :: AreNewest(kept, whole)
    decreases |s|
  {
    if |s| > MAX_TERMINAL_SESSIONS {
      LeastExists(s);
      var e :| IsLeast(e, s);
      DropLeast(s, whole, e);
      NewestExists(s - {e}, whole);
    } else {
      SizeWithin(s, whole);
      assert AreNewest(s, whole);
    }
  }

  lemma SizeWithin(s: set<Entry>, whole: set<Entry>)
    requires s <= whole
    ensures |s| <= |whole|
  {
    assert whole == s + (whole - s);
  }
}
