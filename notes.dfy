/**
 * Notes and the pure part of MainFrame.filter: ordering the search result
 * newest first (Python's stable `sort(key=mtime, reverse=True)`) and picking
 * the note to autocomplete, the first result whose title starts with the
 * query up to case.
 */
module Notes {
  import opened Wrappers
  import opened CaseFold

  /** A note as the engine sees it: identity path, display title, modification time. */
  datatype Note = Note(abspath: string, title: string, mtime: int)

  /** A condition a note may meet; used to select a subsequence of notes. */
  datatype Criterion = TitlePrefix(query: string) | ModifiedAt(time: int)

  predicate Meets(n: Note, c: Criterion)
  {
    match c
    case TitlePrefix(q) => StartsWithCI(n.title, q)
    case ModifiedAt(t) => n.mtime == t
  }

  /** The notes of `s` that meet `c`, in the order of `s`. */
  function Keep(s: seq<Note>, c: Criterion): (r: seq<Note>)
    ensures |r| <= |s|
  {
    if s == [] then [] else (if Meets(s[0], c) then [s[0]] else []) + Keep(s[1..], c)
  }

  /** A note is kept exactly when it is listed and meets the criterion. */
  lemma {:induction false} KeepMembers(s: seq<Note>, c: Criterion)
    ensures forall n :: n in Keep(s, c) <==> n in s && Meets(n, c)
  {
    if s != [] {
      KeepMembers(s[1..], c);
      assert forall n :: n in s <==> n == s[0] || n in s[1..];
    }
  }

  /** Keeping notes from a concatenation keeps them from each part. */
  lemma {:induction false} KeepConcat(a: seq<Note>, b: seq<Note>, c: Criterion)
    ensures Keep(a + b, c) == Keep(a, c) + Keep(b, c)
  {
    if a == [] {
      assert a + b == b;
    } else {
      assert (a + b)[0] == a[0];
      assert (a + b)[1..] == a[1..] + b;
      KeepConcat(a[1..], b, c);
      if Meets(a[0], c) {
        assert [a[0]] + (Keep(a[1..], c) + Keep(b, c)) == ([a[0]] + Keep(a[1..], c)) + Keep(b, c);
      } else {
        assert [] + Keep(a[1..] + b, c) == Keep(a[1..] + b, c);
      }
    }
  }


  /** Extending a prefix of `s` by one note extends the kept notes by that note if it meets `c`. */
  lemma KeepExtend(s: seq<Note>, i: nat, c: Criterion)
    requires i < |s|
    ensures Keep(s[..i + 1], c) == Keep(s[..i], c) + if Meets(s[i], c) then [s[i]] else []
  {
    assert s[..i + 1] == s[..i] + [s[i]];
    KeepConcat(s[..i], [s[i]], c);
    assert [s[i]][1..] == [];
  }

  /** Newest first: modification times never increase along the list. */
  ghost predicate NewestFirst(s: seq<Note>)
  {
    forall i, j :: 0 <= i < j < |s| ==> s[i].mtime >= s[j].mtime
  }

  /** Put `n` in front of the first note that is not newer than it. */
  function Insert(n: Note, s: seq<Note>): seq<Note>
  {
    if s == [] || n.mtime >= s[0].mtime then [n] + s else [s[0]] + Insert(n, s[1..])
  }

  /**
   * `sort(key=lambda x: x.mtime, reverse=True)`: each note is inserted in front of
   * the later notes of equal time, so equal times keep their listing order.
   */
  function SortNewestFirst(s: seq<Note>): seq<Note>
  {
    if s == [] then [] else Insert(s[0], SortNewestFirst(s[1..]))
  }

  lemma {:induction false} InsertPermutes(n: Note, s: seq<Note>)
    ensures multiset(Insert(n, s)) == multiset(s) + multiset{n}
  {
    if s != [] && n.mtime < s[0].mtime {
      InsertPermutes(n, s[1..]);
      assert s == [s[0]] + s[1..];
    }
  }

  lemma {:induction false} InsertOrdered(n: Note, s: seq<Note>)
    requires NewestFirst(s)
    ensures NewestFirst(Insert(n, s))
  {
    if s != [] && n.mtime < s[0].mtime {
      InsertOrdered(n, s[1..]);
      InsertPermutes(n, s[1..]);
      var r := Insert(n, s[1..]);
      forall k | 0 <= k < |r| ensures s[0].mtime >= r[k].mtime {
        assert r[k] in multiset(r);
        assert r[k] in multiset(s[1..]) + multiset{n};
      }
    }
  }

  /** The sorted result holds exactly the notes of the search result, with multiplicity. */
  lemma {:induction false} SortNewestFirstPermutes(s: seq<Note>)
    ensures multiset(SortNewestFirst(s)) == multiset(s)
  {
    if s != [] {
      SortNewestFirstPermutes(s[1..]);
      InsertPermutes(s[0], SortNewestFirst(s[1..]));
      assert s == [s[0]] + s[1..];
    }
  }

  /** The sorted result lists the newest note first. */
  lemma {:induction false} SortNewestFirstOrdered(s: seq<Note>)
    ensures NewestFirst(SortNewestFirst(s))
  {
    if s != [] {
      SortNewestFirstOrdered(s[1..]);
      InsertOrdered(s[0], SortNewestFirst(s[1..]));
    }
  }

  /** Selecting notes commutes with inserting into a newest-first list. */
  lemma {:induction false} KeepInsert(n: Note, s: seq<Note>, c: Criterion)
    requires NewestFirst(s)
    ensures Keep(Insert(n, s), c) == if Meets(n, c) then Insert(n, Keep(s, c)) else Keep(s, c)
  {
    if s == [] || n.mtime >= s[0].mtime {
      assert ([n] + s)[1..] == s;
      var k := Keep(s, c);
      if k != [] {
        KeepMembers(s, c);
        assert k[0] in s;
      }
    } else {
      var x, rest := s[0], s[1..];
      assert s == [x] + rest;
      assert ([x] + Insert(n, rest))[1..] == Insert(n, rest);
      KeepInsert(n, rest, c);
      var kr := Keep(rest, c);
      if Meets(x, c) {
        assert Keep(s, c) == [x] + kr;
        if Meets(n, c) {
          assert ([x] + kr)[0] == x && ([x] + kr)[1..] == kr;
          assert Insert(n, [x] + kr) == [x] + Insert(n, kr);
        }
      } else {
        assert Keep(s, c) == kr;
      }
    }
  }

  /** Selecting notes from the sorted list equals sorting the selected notes. */
  lemma {:induction false} KeepSortNewestFirst(s: seq<Note>, c: Criterion)
    ensures Keep(SortNewestFirst(s), c) == SortNewestFirst(Keep(s, c))
  {
    if s != [] {
      var x, rest := s[0], s[1..];
      KeepSortNewestFirst(rest, c);
      SortNewestFirstOrdered(rest);
      KeepInsert(x, SortNewestFirst(rest), c);
      var kr := Keep(rest, c);
      if Meets(x, c) {
        assert Keep(s, c) == [x] + kr;
        assert ([x] + kr)[0] == x && ([x] + kr)[1..] == kr;
      } else {
        assert Keep(s, c) == kr;
      }
    }
  }

  /** Notes that share one modification time are already sorted. */
  lemma {:induction false} SortSameTime(s: seq<Note>, t: int)
    requires forall n :: n in s ==> n.mtime == t
    ensures SortNewestFirst(s) == s
  {
    if s != [] {
      SortSameTime(s[1..], t);
      assert s == [s[0]] + s[1..];
    }
  }

  /** Stability: the notes modified at any one time appear in their listing order. */
  lemma SortNewestFirstStable(s: seq<Note>, t: int)
    ensures Keep(SortNewestFirst(s), ModifiedAt(t)) == Keep(s, ModifiedAt(t))
  {
    KeepSortNewestFirst(s, ModifiedAt(t));
    KeepMembers(s, ModifiedAt(t));
    SortSameTime(Keep(s, ModifiedAt(t)), t);
  }

  /**
   * The head of the sorted list is the first listed note of the newest time:
   * nothing is newer, and everything listed before it is strictly older.
   */
  lemma {:induction false} SortNewestFirstHead(s: seq<Note>) returns (k: nat)
    requires s != []
    ensures k < |s| && SortNewestFirst(s) != [] && SortNewestFirst(s)[0] == s[k]
    ensures forall i :: 0 <= i < |s| ==> s[i].mtime <= s[k].mtime
    ensures forall i :: 0 <= i < k ==> s[i].mtime < s[k].mtime
  {
    if |s| == 1 {
      k := 0;
    } else {
      var k' := SortNewestFirstHead(s[1..]);
      var rest := SortNewestFirst(s[1..]);
      if s[0].mtime >= rest[0].mtime {
        k := 0;
        forall i | 0 < i < |s| ensures s[i].mtime <= s[0].mtime {
          assert s[i] == s[1..][i - 1];
        }
      } else {
        k := k' + 1;
        forall i | 0 < i < |s| ensures s[i].mtime <= s[k].mtime {
          assert s[i] == s[1..][i - 1];
        }
        forall i | 0 < i < k ensures s[i].mtime < s[k].mtime {
          assert s[i] == s[1..][i - 1];
        }
      }
    }
  }

  /**
   * MainFrame.filter's `autocompletable_matches`: with a non-empty query, the
   * matches whose title starts with the query up to case, in list order.
   */
  function Autocompletable(matching: seq<Note>, query: string): seq<Note>
  {
    if query == "" then [] else Keep(matching, TitlePrefix(query))
  }

  function First(s: seq<Note>): Option<Note>
  {
    if s == [] then None else Some(s[0])
  }

  /** The note MainFrame.filter asks to select for search result `found` and `query`. */
  function Proposal(found: seq<Note>, query: string): Option<Note>
  {
    First(Autocompletable(SortNewestFirst(found), query))
  }

  /** Nothing is kept when no listed note meets the criterion. */
  lemma {:induction false} KeepNone(s: seq<Note>, c: Criterion)
    requires forall n :: n in s ==> !Meets(n, c)
    ensures Keep(s, c) == []
  {
    if s != [] {
      assert s[0] in s;
      assert forall n :: n in s[1..] ==> n in s;
      KeepNone(s[1..], c);
    }
  }

  /**
   * When some found note's title starts with the non-empty query, the proposal
   * is such a note, the newest of them, and of the newest ones the first in
   * search order.
   */
  lemma ProposalNewest(found: seq<Note>, query: string, n: Note)
    requires query != "" && n in found && StartsWithCI(n.title, query)
    ensures Proposal(found, query).Some?
    ensures var p := Proposal(found, query).value;
            var matches := Keep(found, TitlePrefix(query));
            && p in found && StartsWithCI(p.title, query)
            && (forall m :: m in found && StartsWithCI(m.title, query) ==> m.mtime <= p.mtime)
            && exists k :: 0 <= k < |matches| && matches[k] == p &&
                 forall i :: 0 <= i < k ==> matches[i].mtime < p.mtime
  {
    var c := TitlePrefix(query);
    var matches := Keep(found, c);
    KeepMembers(found, c);
    KeepSortNewestFirst(found, c);
    assert n in matches;
    var k := SortNewestFirstHead(matches);
    var p := Proposal(found, query).value;
    assert p == matches[k];
    forall m | m in found && StartsWithCI(m.title, query) ensures m.mtime <= p.mtime {
      assert m in matches;
      var i :| 0 <= i < |matches| && matches[i] == m;
    }
  }

  /**
   * A note is proposed exactly when the query is non-empty and some found note's
   * title starts with it; the proposal is then the newest such note, and of the
   * newest ones the first in search order.
   */
  lemma ProposalIsNewestMatch(found: seq<Note>, query: string)
    ensures Proposal(found, query).Some? <==>
              query != "" && exists n :: n in found && StartsWithCI(n.title, query)
    ensures Proposal(found, query).Some? ==>
              var p := Proposal(found, query).value;
              var matches := Keep(found, TitlePrefix(query));
              && p in found && StartsWithCI(p.title, query)
              && (forall n :: n in found && StartsWithCI(n.title, query) ==> n.mtime <= p.mtime)
              && exists k :: 0 <= k < |matches| && matches[k] == p &&
                   forall i :: 0 <= i < k ==> matches[i].mtime < p.mtime
  {
    if query != "" {
      if exists n :: n in found && StartsWithCI(n.title, query) {
        var n :| n in found && StartsWithCI(n.title, query);
        ProposalNewest(found, query, n);
      } else {
        var c := TitlePrefix(query);
        KeepNone(found, c);
        KeepSortNewestFirst(found, c);
      }
    }
  }
}
