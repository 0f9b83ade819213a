/** The names of cached files: how Proxy.java spells them and how Proxy.java
    and Cache.java take them apart again. Names are relative to the cache
    directory. */
module CacheKeys {
  import opened Options

  /** A cached file: the proxy-wide copy of one version, or the private copy of
      one write descriptor. */
  datatype Key =
    | Shared(path: string, ver: nat)
    | Private(path: string, ver: nat, fd: nat)

  function ToString(n: nat): (s: string)
    ensures s != "" && AllDigits(s)
  {
    var digit := ('0' as int + n % 10) as char;
    if n < 10 then [digit] else ToString(n / 10) + [digit]
  }

  predicate IsDigit(c: char) {
    '0' <= c <= '9'
  }

  predicate AllDigits(s: string) {
    forall i :: 0 <= i < |s| ==> IsDigit(s[i])
  }

  function Value(s: string): nat
    requires AllDigits(s)
  {
    if s == "" then 0
    else 10 * Value(s[..|s| - 1]) + (s[|s| - 1] as int - '0' as int)
  }

  /** Integer.parseInt; None is NumberFormatException. */
  function ParseInt(s: string): Option<int> {
    if s != "" && AllDigits(s) then Some(Value(s))
    else if |s| > 1 && (s[0] == '-' || s[0] == '+') && AllDigits(s[1..]) then
      var n: int := Value(s[1..]);
      Some(if s[0] == '-' then -n else n)
    else None
  }

  /** String.lastIndexOf('-'). */
  function LastDash(s: string): (i: int)
    ensures -1 <= i < |s|
    ensures 0 <= i ==> s[i] == '-'
    ensures forall j :: i < j < |s| ==> s[j] != '-'
  {
    if s == "" then -1
    else if s[|s| - 1] == '-' then |s| - 1
    else LastDash(s[..|s| - 1])
  }

  predicate StartsWith(s: string, prefix: string) {
    prefix <= s
  }

  /** What open and close print: path-version (Proxy.java:86-91, 429-434) and,
      for a write descriptor, path-version-wFD (Proxy.java:361-362). */
  function Render(k: Key): string {
    match k
    case Shared(p, v) => p + "-" + ToString(v)
    case Private(p, v, fd) => p + "-" + ToString(v) + "-w" + ToString(fd)
  }

  datatype StaleTest = Keep | Stale | Malformed

  /** The version Cache.java:90-91 reads off a name; None is an exception. */
  function VersionOf(name: string): Option<int> {
    var cut := LastDash(name);
    if cut < 0 then None else ParseInt(name[cut + 1..])
  }

  /** One turn of the loop of checkStaleVersions (Cache.java:95-99) on names;
      the name asked about has a version. */
  function TestNames(name: string, entry: string): StaleTest
    requires VersionOf(name).Some?
  {
    var cut := LastDash(name);
    if !StartsWith(entry, name[..cut]) then Keep
    else if |entry| < cut + 1 then Malformed
    else
      var end := entry[cut + 1..];
      if 'w' in end then Keep
      else match ParseInt(end)
        case None => Malformed
        case Some(ver) => if ver != VersionOf(name).value then Stale else Keep
  }

  lemma {:induction false} ValueOfToString(n: nat)
    ensures Value(ToString(n)) == n
  {
    if n >= 10 {
      ValueOfToString(n / 10);
      assert ToString(n)[..|ToString(n)| - 1] == ToString(n / 10);
    }
  }

  lemma ParseToString(n: nat)
    ensures ParseInt(ToString(n)) == Some(n)
  {
    ValueOfToString(n);
  }

  /** What Integer.parseInt makes of digits, with and without a sign, and that it
      rejects everything else. */
  lemma ParseIntReads(s: string, n: nat)
    ensures ParseInt(ToString(n)) == Some(n)
    ensures ParseInt("-" + ToString(n)) == Some(0 - n) && ParseInt("+" + ToString(n)) == Some(n)
    ensures ParseInt(s).Some? <==>
      (s != "" && AllDigits(s)) || (|s| > 1 && s[0] in {'-', '+'} && AllDigits(s[1..]))
  {
    ValueOfToString(n);
    assert ("-" + ToString(n))[1..] == ToString(n) && ("+" + ToString(n))[1..] == ToString(n);
    assert !IsDigit(("-" + ToString(n))[0]) && !IsDigit(("+" + ToString(n))[0]);
  }

  lemma LastDashIs(s: string, i: nat)
    requires i < |s| && s[i] == '-' && forall j :: i < j < |s| ==> s[j] != '-'
    ensures LastDash(s) == i
  {
  }

  lemma LastDashOfSuffix(a: string, d: string)
    requires '-' !in d
    ensures LastDash(a + "-" + d) == |a|
  {
    var s := a + "-" + d;
    LastDashIs(s, |a|);
  }

  /** Splitting a printed read key at its last dash gives back the path and the
      version, whatever dashes and digits the path contains. */
  lemma SplitRecovers(p: string, v: nat)
    ensures var s := Render(Shared(p, v));
      LastDash(s) == |p| && s[..|p|] == p && s[|p| + 1..] == ToString(v) && VersionOf(s) == Some(v)
  {
    LastDashOfSuffix(p, ToString(v));
    ParseToString(v);
  }

  // The part of a private name in front of its -wFD is the shared name.
  lemma SplitPrivate(p: string, v: nat, fd: nat)
    ensures var s := Render(Private(p, v, fd));
      var cut := LastDash(s);
      cut == |Render(Shared(p, v))| && s[..cut] == Render(Shared(p, v)) && s[cut + 1..] == "w" + ToString(fd)
  {
    hide LastDash;
    assert Render(Private(p, v, fd)) == Render(Shared(p, v)) + "-" + ("w" + ToString(fd));
    assert AllDigits(ToString(fd));
    hide Render;
    hide ToString;
    LastDashOfSuffix(Render(Shared(p, v)), "w" + ToString(fd));
  }

  lemma PrivateHasNoVersion(p: string, v: nat, fd: nat)
    ensures VersionOf(Render(Private(p, v, fd))) == None
  {
    SplitPrivate(p, v, fd);
    var end := "w" + ToString(fd);
    assert !IsDigit(end[0]);
  }

  /** Different cached files have different names; in particular no read key is
      spelled like a private copy. */
  lemma RenderInjective(k: Key, k': Key)
    requires Render(k) == Render(k')
    ensures k == k'
  {
    match (k, k')
    case (Shared(p, v), Shared(p', v')) =>
      SplitRecovers(p, v);
      SplitRecovers(p', v');
    case (Private(p, v, fd), Private(p', v', fd')) =>
      SplitPrivate(p, v, fd);
      SplitPrivate(p', v', fd');
      SplitRecovers(p, v);
      SplitRecovers(p', v');
      ValueOfToString(fd);
      ValueOfToString(fd');
      assert ("w" + ToString(fd))[1..] == ToString(fd);
      assert ("w" + ToString(fd'))[1..] == ToString(fd');
    case (Shared(p, v), Private(p', v', fd')) =>
      SplitRecovers(p, v);
      PrivateHasNoVersion(p', v', fd');
    case (Private(p, v, fd), Shared(p', v')) =>
      SplitRecovers(p', v');
      PrivateHasNoVersion(p, v, fd);
  }

  /** close tells read descriptors from write descriptors by asking whether the
      remembered name starts with the cache directory (Proxy.java:420). A read
      descriptor remembers dir/path-version, a write descriptor path-version
      alone: the test is right for every read descriptor, and right for a write
      descriptor exactly when its own name does not start that way. */
  function RememberedName(dir: string, read: bool, path: string, ver: nat): string {
    if read then dir + "/" + Render(Shared(path, ver)) else Render(Shared(path, ver))
  }

  lemma ReadTestIsExact(dir: string, read: bool, path: string, ver: nat)
    ensures (StartsWith(RememberedName(dir, read, path, ver), dir) <==> read)
      <==> (read || !StartsWith(Render(Shared(path, ver)), dir))
  {
    assert dir <= dir + "/" + Render(Shared(path, ver));
  }

  /** No path is a proper prefix of another. */
  ghost predicate PrefixFree(paths: set<string>) {
    forall p, q :: p in paths && q in paths && StartsWith(q, p) ==> p == q
  }

  // Of two prefixes of one string, one is a prefix of the other.
  lemma PrefixesCompare(a: string, b: string, s: string)
    requires a <= s && b <= s
    ensures a <= b || b <= a
  {
  }

  /** On a prefix-free set of paths the textual test singles out exactly the
      other versions of the same path, and never raises an exception. */
  lemma StaleTestIsExact(paths: set<string>, p: string, v: nat, k: Key)
    requires PrefixFree(paths) && p in paths && k.path in paths
    ensures VersionOf(Render(Shared(p, v))).Some?
    ensures TestNames(Render(Shared(p, v)), Render(k)) ==
      if k.Shared? && k.path == p && k.ver != v then Stale else Keep
  {
    hide ToString;
    hide LastDash;
    hide ParseInt;
    SplitRecovers(p, v);
    var entry := Render(k);
    assert k.path <= entry;
    if p <= entry {
      PrefixesCompare(p, k.path, entry);
      assert k.path == p;
      match k
      case Shared(_, u) =>
        SplitRecovers(p, u);
        ParseToString(u);
        assert 'w' !in ToString(u) by {
          assert AllDigits(ToString(u));
        }
      case Private(_, u, fd) =>
        var end := entry[|p| + 1..];
        assert entry == p + "-" + (ToString(u) + "-w" + ToString(fd));
        assert end == ToString(u) + "-w" + ToString(fd);
        assert end[|ToString(u)| + 1] == 'w';
    }
  }

  /** What the test should say: stale are the shared entries of the same path
      with another version. */
  predicate TestIsRight(p: string, v: nat, k: Key)
    requires VersionOf(Render(Shared(p, v))).Some?
  {
    TestNames(Render(Shared(p, v)), Render(k)) == if k.Shared? && k.path == p && k.ver != v then Stale else Keep
  }

  /** The exact condition, for every entry: the test is right for the entries of
      the path itself; for an entry of another path it is right if and only if
      the path is not a prefix of the entry's name, or what stands one character
      behind that prefix has a 'w' or is the version asked about. */
  lemma StaleTestIsRightIff(p: string, v: nat, k: Key)
    ensures VersionOf(Render(Shared(p, v))).Some?
    ensures TestIsRight(p, v, k) <==>
      || k.path == p
      || !StartsWith(Render(k), p)
      || (|p| + 1 <= |Render(k)|
          && var tail := Render(k)[|p| + 1..]; 'w' in tail || ParseInt(tail) == Some(v))
  {
    if k.path == p {
      StaleTestIsExact({p}, p, v, k);
    } else {
      hide Render;
      hide ParseInt;
      KeptIff(p, v, Render(k));
      hide TestNames;
      hide VersionOf;
    }
  }

  lemma KeptIff(p: string, v: nat, entry: string)
    ensures VersionOf(Render(Shared(p, v))).Some?
    ensures TestNames(Render(Shared(p, v)), entry) == Keep <==>
      || !StartsWith(entry, p)
      || (|p| + 1 <= |entry| && var tail := entry[|p| + 1..]; 'w' in tail || ParseInt(tail) == Some(v))
  {
    SplitRecovers(p, v);
    hide Render;
    hide LastDash;
    hide ParseInt;
  }

  /** What the test makes of the part of a name one character behind the prefix. */
  function TailTest(tail: string, v: nat): StaleTest {
    if 'w' in tail then Keep
    else match ParseInt(tail)
      case None => Malformed
      case Some(ver) => if ver != v then Stale else Keep
  }

  // The test on names that begin with the path.
  lemma TestOfTail(p: string, v: nat, entry: string)
    requires StartsWith(entry, p)
    ensures VersionOf(Render(Shared(p, v))).Some?
    ensures TestNames(Render(Shared(p, v)), entry) ==
      if |entry| < |p| + 1 then Malformed else TailTest(entry[|p| + 1..], v)
  {
    SplitRecovers(p, v);
    hide Render;
    hide LastDash;
    hide ParseInt;
  }

  // Of digits it makes the version they spell.
  lemma TailOfDigits(digits: string, v: nat)
    requires AllDigits(digits)
    ensures TailTest(digits, v) == if digits == "" then Malformed else if Value(digits) == v then Keep else Stale
  {
    hide Value;
    assert forall i :: 0 <= i < |digits| ==> digits[i] != 'w';
  }

  // Behind the rest of a longer path stand a dash and the digits of the version.
  lemma TailOfLonger(rest: string, u: nat, v: nat)
    ensures TailTest(rest + "-" + ToString(u), v) ==
      if 'w' in rest then Keep else if rest != "" then Malformed else if u == 0 && v == 0 then Keep else Stale
  {
    hide Value;
    ParseIntReads("-" + ToString(u), u);
    hide ParseInt;
    var digits := ToString(u);
    var end := rest + "-" + digits;
    assert 'w' !in digits;
    hide ToString;
    assert 'w' in end <==> 'w' in rest;
    if rest == "" {
      assert end == "-" + digits;
    } else {
      assert end[|rest|] == '-' && end[1..][|rest| - 1] == '-';
      assert !AllDigits(end) && !AllDigits(end[1..]);
      ParseIntReads(end, u);
    }
  }

  lemma LongerName(p: string, q: string, digits: string)
    requires p <= q && p != q
    ensures var entry := q + "-" + digits;
      StartsWith(entry, p) && |entry| > |p| && entry[|p| + 1..] == q[|p| + 1..] + "-" + digits
  {
    var entry := q + "-" + digits;
    assert p <= entry && entry[..|p|] == q[..|p|];
  }

  /** So without that hypothesis the test goes wrong on longer paths: an entry of a
      path q that properly extends p is left alone exactly when q has a 'w'
      behind the first character that p lacks. Else it is taken for a stale
      version of p when it extends p by one character, and raises an exception
      when it extends p by more. */
  lemma LongerPathTest(p: string, v: nat, q: string, u: nat)
    requires p <= q && p != q
    ensures VersionOf(Render(Shared(p, v))).Some?
    ensures TestNames(Render(Shared(p, v)), Render(Shared(q, u))) ==
      if 'w' in q[|p| + 1..] then Keep
      else if |q| > |p| + 1 then Malformed
      else if u == 0 && v == 0 then Keep else Stale
  {
    assert Render(Shared(q, u)) == q + "-" + ToString(u);
    hide *;
    LongerName(p, q, ToString(u));
    TestOfTail(p, v, Render(Shared(q, u)));
    TailOfLonger(q[|p| + 1..], u, v);
  }

  /** Nor is it right on shorter paths: when p spells the beginning of the name of
      an entry of a path q that p properly extends, the test reads some last
      digits of that name for its version; if none are left behind p and one more
      character, it raises an exception. */
  lemma ShorterPathTest(p: string, v: nat, q: string, u: nat)
    requires |q| < |p| && StartsWith(Render(Shared(q, u)), p)
    ensures VersionOf(Render(Shared(p, v))).Some?
    ensures var digits, read := ToString(u), |p| - |q|;
      && 1 <= read <= |digits| + 1 && AllDigits(digits)
      && TestNames(Render(Shared(p, v)), Render(Shared(q, u))) ==
           if read > |digits| then Malformed else TailTest(digits[read..], v)
  {
    assert Render(Shared(q, u)) == q + "-" + ToString(u);
    hide *;
    SharedNameTest(p, v, q, Render(Shared(q, u)), ToString(u));
  }

  lemma SharedNameTest(p: string, v: nat, q: string, entry: string, digits: string)
    requires |q| < |p| && StartsWith(entry, p) && entry == q + "-" + digits
    ensures VersionOf(Render(Shared(p, v))).Some? && |p| - |q| <= |digits| + 1
    ensures TestNames(Render(Shared(p, v)), entry) ==
      if |p| - |q| > |digits| then Malformed else TailTest(digits[|p| - |q|..], v)
  {
    hide *;
    SharedTail(q, digits, |p|);
    PrefixIsShorter(p, entry);
    TestOfTail(p, v, entry);
  }

  lemma PrefixIsShorter(p: string, entry: string)
    requires StartsWith(entry, p)
    ensures |p| <= |entry|
  {
  }

  lemma TailWithW(tail: string, v: nat)
    requires 'w' in tail
    ensures TailTest(tail, v) == Keep
  {
  }

  // What stands behind a position in the name of a shared entry.
  lemma SharedTail(path: string, digits: string, cut: nat)
    requires |path| < cut
    ensures var entry := path + "-" + digits;
      && |entry| == |path| + 1 + |digits|
      && (cut <= |path| + |digits| ==> entry[cut + 1..] == digits[cut - |path|..])
  {
  }

  /** The same for the private copies of a shorter path: those are left alone as
      long as their 'w' is behind p and one more character; else the test reads
      last digits of the descriptor. */
  lemma ShorterPrivateTest(p: string, v: nat, q: string, u: nat, fd: nat)
    requires |q| < |p| && StartsWith(Render(Private(q, u, fd)), p)
    ensures VersionOf(Render(Shared(p, v))).Some?
    ensures var digits, gone := ToString(fd), |p| - |Render(Shared(q, u))|;
      && gone <= |digits| + 2 && AllDigits(digits)
      && TestNames(Render(Shared(p, v)), Render(Private(q, u, fd))) ==
           if gone <= 0 then Keep
           else if gone > |digits| + 1 then Malformed
           else TailTest(digits[gone - 1..], v)
  {
    hide *;
    PrivateName(q, u, fd);
    PrivateNameTest(p, v, Render(Shared(q, u)), Render(Private(q, u, fd)), ToString(fd));
  }

  lemma PrivateName(q: string, u: nat, fd: nat)
    ensures Render(Private(q, u, fd)) == Render(Shared(q, u)) + "-w" + ToString(fd)
  {
    hide ToString;
  }

  lemma PrivateNameTest(p: string, v: nat, shared: string, entry: string, digits: string)
    requires StartsWith(entry, p) && entry == shared + "-w" + digits
    ensures VersionOf(Render(Shared(p, v))).Some? && |p| - |shared| <= |digits| + 2
    ensures TestNames(Render(Shared(p, v)), entry) ==
      if |p| <= |shared| then Keep
      else if |p| - |shared| > |digits| + 1 then Malformed
      else TailTest(digits[|p| - |shared| - 1..], v)
  {
    hide *;
    PrivateTail(shared, digits, |p|);
    PrefixIsShorter(p, entry);
    TestOfTail(p, v, entry);
    if |p| <= |shared| {
      TailWithW(entry[|p| + 1..], v);
    }
  }

  // What stands behind a position in the name of a private copy.
  lemma PrivateTail(shared: string, digits: string, cut: nat)
    ensures var entry := shared + "-w" + digits;
      && |entry| == |shared| + 2 + |digits|
      && (cut <= |shared| ==> 'w' in entry[cut + 1..])
      && (|shared| < cut <= |shared| + 1 + |digits| ==> entry[cut + 1..] == digits[cut - |shared| - 1..])
  {
    var entry := shared + "-w" + digits;
    if cut <= |shared| {
      assert entry[cut + 1..][|shared| - cut] == 'w';
    }
  }

  /** The private copies of a longer path are always left alone. */
  lemma LongerPrivateTest(p: string, v: nat, q: string, u: nat, fd: nat)
    requires p <= q && p != q
    ensures VersionOf(Render(Shared(p, v))).Some?
    ensures TestNames(Render(Shared(p, v)), Render(Private(q, u, fd))) == Keep
  {
    TestOfTail(p, v, Render(Private(q, u, fd)));
    hide TestNames;
    hide VersionOf;
    hide LastDash;
    var shared, entry := Render(Shared(q, u)), Render(Private(q, u, fd));
    assert entry == shared + "-w" + ToString(fd);
    assert p <= entry && entry[|shared| + 1] == 'w';
    hide Render;
    hide ToString;
    assert entry[|p| + 1..][|shared| - |p|] == 'w';
  }

  /** On a prefix-free set of paths no path is spelled like a cached file. */
  lemma NoPathSpellsAKey(paths: set<string>, p: string, k: Key)
    requires PrefixFree(paths) && p in paths && k.path in paths
    ensures Render(k) != p
  {
    assert k.path <= Render(k) && |k.path| < |Render(k)|;
  }
}
