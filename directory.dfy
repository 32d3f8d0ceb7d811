/** The process-wide bookkeeping shared by all sources: how many exist, and
    which indexes are taken on each host address. A source's index and the
    number of live sources at its construction fix its subject-name prefix. */
module SourceDirectory {
  import opened Text

  /** `index` is the smallest positive number not in `used`. */
  predicate IsLeastFree(used: set<int>, index: int)
  {
    index >= 1 && index !in used && forall k :: 1 <= k < index ==> k in used
  }

  /** At most one number is the least free one. */
  lemma LeastFreeUnique(used: set<int>, a: int, b: int)
    requires IsLeastFree(used, a) && IsLeastFree(used, b)
    ensures a == b
  {
  }

  /** The numbers 1 .. n. */
  function UpTo(n: nat): (r: set<int>)
    ensures forall k :: k in r <==> 1 <= k <= n
    ensures |r| == n
  {
    if n == 0 then {} else UpTo(n - 1) + {n}
  }

  /** A set holding all of 1 .. n has at least n members. */
  lemma CoversUpTo(used: set<int>, n: nat)
    requires forall k :: 1 <= k <= n ==> k in used
    ensures n <= |used|
  {
    var rest := used - UpTo(n);
    assert used == UpTo(n) + rest;
    assert UpTo(n) * rest == {};
  }

  /** Subject-name prefix: empty while this is the only source; otherwise the
      host followed by ":" for the first index on that host, or by "{index}:"
      for any other. */
  function SubjectPrefix(ip: string, sourceCount: int, index: int): (r: string)
    ensures r == "" <==> sourceCount <= 1
    ensures sourceCount > 1 ==> |r| > |ip| && r[..|ip|] == ip && r[|r| - 1] == ':'
    ensures sourceCount > 1 && index == 1 ==> r == ip + ":"
  {
    if sourceCount > 1 then
      if index == 1 then ip + ":" else ip + "{" + IntToString(index) + "}:"
    else ""
  }

  /** With more than one source, two different indexes on one host give two
      different prefixes, each starting with the host. */
  lemma PrefixesDistinct(ip: string, count1: int, count2: int, i: int, j: int)
    requires count1 > 1 && count2 > 1 && i >= 1 && j >= 1 && i != j
    ensures SubjectPrefix(ip, count1, i) != SubjectPrefix(ip, count2, j)
    ensures SubjectPrefix(ip, count1, i)[..|ip|] == ip
  {
    var p, q := SubjectPrefix(ip, count1, i), SubjectPrefix(ip, count2, j);
    if i == 1 {
      assert p[|ip|] == ':' && q[|ip|] == '{';
    } else if j == 1 {
      assert p[|ip|] == '{' && q[|ip|] == ':';
    } else if p == q {
      var di, dj := NatToString(i), NatToString(j);
      assert p == ip + "{" + di + "}:";
      assert q == ip + "{" + dj + "}:";
      assert p[|ip| + 1 .. |p| - 2] == di;
      assert q[|ip| + 1 .. |q| - 2] == dj;
      NatToStringInjective(i, j);
    }
  }

  /** The directory as a class: the source count and the per-host index sets. */
  class Directory {
    var sourceCount: int
    var ipAddressCounts: map<string, set<int>>

    constructor()
      ensures sourceCount == 0 && ipAddressCounts == map[]
    {
      sourceCount := 0;
      ipAddressCounts := map[];
    }

    /** The indexes taken on `ip`. */
    function Used(ip: string): set<int>
      reads this
    {
      if ip in ipAddressCounts then ipAddressCounts[ip] else {}
    }

    /** Registers a new source on `ip`: counts it, takes the least free index
        on that host, and returns the index with the prefix it implies. */
    method Register(ip: string) returns (index: int, prefix: string)
      modifies this
      ensures sourceCount == old(sourceCount) + 1
      ensures IsLeastFree(old(Used(ip)), index)
      ensures ipAddressCounts == old(ipAddressCounts)[ip := old(Used(ip)) + {index}]
      ensures prefix == SubjectPrefix(ip, sourceCount, index)
    {
      sourceCount := sourceCount + 1;
      index := 1;
      if ip in ipAddressCounts {
        index := LeastFree(ipAddressCounts[ip]);
        ipAddressCounts := ipAddressCounts[ip := ipAddressCounts[ip] + {index}];
      } else {
        assert old(Used(ip)) + {index} == {1};
        ipAddressCounts := ipAddressCounts[ip := {1}];
      }
      prefix := "";
      if sourceCount > 1 {
        if index == 1 {
          prefix := ip + ":";
        } else {
          prefix := ip + "{" + IntToString(index) + "}:";
        }
      }
    }

    /** A source goes away: uncount it and free its index on its host. */
    method Release(ip: string, index: int)
      requires ip in ipAddressCounts
      modifies this
      ensures sourceCount == old(sourceCount) - 1
      ensures ipAddressCounts == old(ipAddressCounts)[ip := old(ipAddressCounts[ip]) - {index}]
    {
      sourceCount := sourceCount - 1;
      ipAddressCounts := ipAddressCounts[ip := ipAddressCounts[ip] - {index}];
    }
  }

  /** Probes 1, 2, ... until a number is not in `used`. */
  method LeastFree(used: set<int>) returns (index: int)
    ensures IsLeastFree(used, index)
  {
    index := 1;
    while index in used
      invariant index >= 1
      invariant forall k :: 1 <= k < index ==> k in used
      invariant index - 1 <= |used|
      decreases |used| - (index - 1)
    {
      CoversUpTo(used, index);
      index := index + 1;
    }
  }

  /** Two sources on one host: the first, alone at its construction, gets no
      prefix; the second gets index 2 and the prefix "host{2}:". */
  method TwoSourcesOnOneHost() returns (first: string, second: string)
    ensures first == "" && second == "host{2}:"
  {
    var dir := new Directory();
    var i1, i2;
    i1, first := dir.Register("host");
    LeastFreeUnique({}, i1, 1);
    i2, second := dir.Register("host");
    LeastFreeUnique({1}, i2, 2);
    assert NatToString(2) == "2";
  }

  /** Releasing the first source frees index 1 again: a third source on that
      host takes it back and gets the plain "host:" prefix. */
  method ReuseAfterRelease() returns (third: string)
    ensures third == "host:"
  {
    var dir := new Directory();
    var i1, p1 := dir.Register("host");
    LeastFreeUnique({}, i1, 1);
    var i2, p2 := dir.Register("host");
    LeastFreeUnique({1}, i2, 2);
    dir.Release("host", i1);
    var i3;
    assert dir.Used("host") == {2};
    i3, third := dir.Register("host");
    LeastFreeUnique({2}, i3, 1);
  }
}
