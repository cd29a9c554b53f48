/** Reading the log in pages. */
module Paging {
  import opened Common
  import opened Entry

  /** The records at or behind an offset, in log order. */
  function From(log: Log, from: nat): Log {
    if log == [] then []
    else if log[0].offset >= from then [log[0]] + From(log[1..], from)
    else From(log[1..], from)
  }

  function Limit(log: Log, limit: Option<nat>): Log {
    match limit
    case None => log
    case Some(n) => if n <= |log| then log[..n] else log
  }

  /** What `read_from` returns. */
  function ReadPage(log: Log, from: nat, limit: Option<nat>): Log { Limit(From(log, from), limit) }

  /** The next offset that the server reports: one behind the last record of the page. */
  function NextOffset(page: Log): Option<nat> {
    if page == [] then None else Some(page[|page| - 1].offset + 1)
  }

  ghost predicate Increasing(log: Log) {
    forall i, j :: 0 <= i < j < |log| ==> log[i].offset < log[j].offset
  }

  lemma {:induction false} FromConcat(a: Log, b: Log, from: nat)
    ensures From(a + b, from) == From(a, from) + From(b, from)
  {
    if a == [] {
      assert a + b == b;
    } else {
      assert (a + b)[1..] == a[1..] + b;
      FromConcat(a[1..], b, from);
    }
  }

  lemma {:induction false} FromNothing(log: Log, from: nat)
    requires forall i :: 0 <= i < |log| ==> log[i].offset < from
    ensures From(log, from) == []
  {
    if log == [] {
    } else {
      FromNothing(log[1..], from);
    }
  }

  lemma {:induction false} FromEverything(log: Log, from: nat)
    requires forall i :: 0 <= i < |log| ==> log[i].offset >= from
    ensures From(log, from) == log
  {
    if log == [] {
    } else {
      FromEverything(log[1..], from);
    }
  }

  /** In an increasing log the records from an offset on are a suffix. */
  lemma {:induction false} FromIsSuffix(log: Log, from: nat) returns (p: nat)
    requires Increasing(log)
    ensures p <= |log| && From(log, from) == log[p..]
    ensures forall i :: 0 <= i < |log| ==> (log[i].offset >= from <==> i >= p)
  {
    if log == [] {
      return 0;
    }
    if log[0].offset >= from {
      forall i | 0 <= i < |log| ensures log[i].offset >= from {
        assert i > 0 ==> log[0].offset < log[i].offset;
      }
      FromEverything(log, from);
      return 0;
    }
    var q := FromIsSuffix(log[1..], from);
    forall i | 0 <= i < |log| ensures log[i].offset >= from <==> i >= q + 1 {
      assert i > 0 ==> log[i] == log[1..][i - 1];
    }
    return q + 1;
  }

  /** A page is the first records at or behind its offset, and the next page starts with the record behind it. */
  lemma NextPage(log: Log, from: nat, limit: nat)
    requires Increasing(log) && ReadPage(log, from, Some(limit)) != []
    ensures var page := ReadPage(log, from, Some(limit));
            |page| <= |From(log, from)|
            && From(log, NextOffset(page).value) == From(log, from)[|page|..]
  {
    hide From;
    var page := ReadPage(log, from, Some(limit));
    var p := FromIsSuffix(log, from);
    var q := FromIsSuffix(log, NextOffset(page).value);
    var last := p + |page| - 1;
    assert page[|page| - 1] == log[last];
    assert last + 1 < |log| ==> log[last].offset < log[last + 1].offset;
    assert q == last + 1;
  }

  /** A page is a stretch of the log from the first record at or behind the offset on, as long as may be. */
  lemma PageIsFull(log: Log, from: nat, limit: Option<nat>) returns (first: nat)
    requires Increasing(log)
    ensures first <= |log| && forall i :: 0 <= i < |log| ==> (log[i].offset >= from <==> i >= first)
    ensures var left := |log| - first;
            var length := if limit.Some? && limit.value < left then limit.value else left;
            ReadPage(log, from, limit) == log[first..first + length]
  {
    hide From;
    first := FromIsSuffix(log, from);
  }

  /** Reads pages until one comes back empty. */
  ghost function AllPages(log: Log, from: nat, limit: nat): Log
    requires Increasing(log)
    decreases |From(log, from)|
  {
    var page := ReadPage(log, from, Some(limit));
    if page == [] then []
    else
      NextPage(log, from, limit);
      page + AllPages(log, NextOffset(page).value, limit)
  }

  /** Paging with any limit of at least one visits every record from an offset on, exactly once and in order. */
  lemma {:induction false} PagingIsComplete(log: Log, from: nat, limit: nat)
    requires Increasing(log) && limit >= 1
    ensures AllPages(log, from, limit) == From(log, from)
    decreases |From(log, from)|
  {
    hide From;
    var page := ReadPage(log, from, Some(limit));
    if page == [] {
    } else {
      NextPage(log, from, limit);
      PagingIsComplete(log, NextOffset(page).value, limit);
      assert From(log, from) == page + From(log, from)[|page|..];
    }
  }
}
