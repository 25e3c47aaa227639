/** The virtual-host trie (httpserver/vhosttrie.go) refines a plain map from hosts and paths to sites. A
path is a sequence of bytes, written as characters. */
module VHostTries {

  class SiteConfig {
    constructor () {
    }
  }

  // ----- splitting and joining -----

  /** strings.Split */
  function Split(s: string, sep: char): (parts: seq<string>)
    ensures |parts| > 0
  {
    if s == "" then [""]
    else
      var rest := Split(s[1..], sep);
      if s[0] == sep then [""] + rest else [[s[0]] + rest[0]] + rest[1..]
  }

  /** strings.Join */
  function Join(parts: seq<string>, sep: char): string {
    if parts == [] then ""
    else if |parts| == 1 then parts[0]
    else parts[0] + [sep] + Join(parts[1..], sep)
  }

  lemma {:induction false} JoinSplit(s: string, sep: char)
    ensures Join(Split(s, sep), sep) == s
  {
    if s != "" {
      JoinSplit(s[1..], sep);
      var rest := Split(s[1..], sep);
      if s[0] == sep {
        assert ([""] + rest)[1..] == rest;
        assert "" + [sep] + Join(rest, sep) == [s[0]] + s[1..];
      } else {
        JoinGrows(s[0], rest, sep);
      }
    }
  }

  lemma {:induction false} JoinGrows(c: char, parts: seq<string>, sep: char)
    requires |parts| > 0
    ensures Join([[c] + parts[0]] + parts[1..], sep) == [c] + Join(parts, sep)
  {
    var more := [[c] + parts[0]] + parts[1..];
    if |parts| > 1 {
      assert more[1..] == parts[1..];
      assert [c] + parts[0] + [sep] + Join(parts[1..], sep) == [c] + (parts[0] + [sep] + Join(parts[1..], sep));
    }
  }

  /** The host with its first i labels replaced by wildcards. */
  function Pattern(host: string, i: nat): string
    requires i <= |Split(host, '.')|
  {
    Join(Starred(Split(host, '.'), i), '.')
  }

  function Starred(labels: seq<string>, i: nat): seq<string>
    requires i <= |labels|
  {
    seq(i, _ => "*") + labels[i..]
  }

  lemma {:induction false} StarredStep(labels: seq<string>, k: nat)
    requires k < |labels|
    ensures Starred(labels, k)[k := "*"] == Starred(labels, k + 1)
  {
  }

  lemma {:induction false} PatternZero(host: string)
    ensures Pattern(host, 0) == host
  {
    JoinSplit(host, '.');
    assert Starred(Split(host, '.'), 0) == Split(host, '.');
  }

  lemma {:induction false} SplitNone(s: string, sep: char)
    requires sep !in s
    ensures Split(s, sep) == [s]
  {
    if s != "" {
      SplitNone(s[1..], sep);
      assert [s[0]] + s[1..] == s;
    }
  }

  /** The first label is what stands in front of the first separator. */
  lemma {:induction false} SplitFirst(name: string, rest: string, sep: char)
    requires sep !in name
    ensures Split(name + [sep] + rest, sep) == [name] + Split(rest, sep)
  {
    var s := name + [sep] + rest;
    if name == "" {
      assert s[0] == sep && s[1..] == rest;
    } else {
      assert s[0] == name[0] && s[1..] == name[1..] + [sep] + rest;
      SplitFirst(name[1..], rest, sep);
      assert ([name[1..]] + Split(rest, sep))[1..] == Split(rest, sep) && [name[0]] + name[1..] == name;
    }
  }

  /** The labels of a host are those it was joined from. */
  lemma {:induction false} SplitJoin(labels: seq<string>, sep: char)
    requires labels != [] && forall l :: l in labels ==> sep !in l
    ensures Split(Join(labels, sep), sep) == labels
    decreases |labels|
  {
    if |labels| == 1 {
      SplitNone(labels[0], sep);
    } else {
      SplitJoin(labels[1..], sep);
      SplitFirst(labels[0], Join(labels[1..], sep), sep);
      assert [labels[0]] + labels[1..] == labels;
    }
  }

  lemma {:induction false} LabelsHaveNone(s: string, sep: char)
    ensures forall l :: l in Split(s, sep) ==> sep !in l
  {
    if s != "" {
      LabelsHaveNone(s[1..], sep);
      var rest := Split(s[1..], sep);
      assert rest[0] in rest && forall l :: l in rest[1..] ==> l in rest;
    }
  }

  /** Patterns, label by label: with one more wildcard, the first label gives way to a star and the rest to the pattern
  of the rest. */
  lemma {:induction false} PatternStep(name: string, rest: string, i: nat)
    requires '.' !in name && i <= |Split(rest, '.')|
    ensures |Split(name + "." + rest, '.')| == 1 + |Split(rest, '.')|
    ensures Pattern(name + "." + rest, 0) == name + "." + rest && Pattern(name + "." + rest, i + 1) == "*." + Pattern(rest, i)
  {
    var host, labels := name + "." + rest, Split(rest, '.');
    assert host == name + ['.'] + rest;
    SplitFirst(name, rest, '.');
    PatternZero(host);
    var starred := Starred(labels, i);
    assert Starred([name] + labels, i + 1) == ["*"] + starred;
    assert (["*"] + starred)[1..] == starred && "*" + ['.'] + Join(starred, '.') == "*." + Join(starred, '.');
  }

  lemma {:induction false} PatternLast(name: string)
    requires '.' !in name
    ensures |Split(name, '.')| == 1 && Pattern(name, 0) == name && Pattern(name, 1) == "*"
  {
    SplitNone(name, '.');
    PatternZero(name);
    assert Starred([name], 1) == ["*"];
  }

  // ----- the reference: a plain map -----

  /** For each host pattern, the sites by path. A path may hold no site. */
  type Sites = map<string, map<string, SiteConfig?>>

  ghost function Put(sites: Sites, host: string, path: string, site: SiteConfig?): Sites {
    sites[host := (if host in sites then sites[host] else map[])[path := site]]
  }

  /** Pattern i of query q is the first that names a host. */
  ghost predicate FirstHost(sites: Sites, queries: seq<string>, q: nat, i: nat) {
    && q < |queries| && i <= |Split(queries[q], '.')| && Pattern(queries[q], i) in sites
    && (forall j :: 0 <= j < i ==> Pattern(queries[q], j) !in sites)
    && forall p :: 0 <= p < q ==> NoHost(sites, queries[p])
  }

  ghost predicate NoHost(sites: Sites, query: string) {
    forall j :: 0 <= j <= |Split(query, '.')| ==> Pattern(query, j) !in sites
  }

  /** No site at a path. */
  ghost predicate Bare(paths: map<string, SiteConfig?>, path: string) {
    path in paths ==> paths[path] == null
  }

  /** The prefix of length n is the longest one with a site; 0 means that there is none. */
  ghost predicate LongestPrefix(paths: map<string, SiteConfig?>, path: string, n: nat) {
    && n <= |path|
    && (n > 0 ==> !Bare(paths, path[..n]))
    && forall m :: n < m <= |path| ==> Bare(paths, path[..m])
  }

  /** What a lookup in the plain map gives. */
  ghost predicate Matches(sites: Sites, queries: seq<string>, path: string, site: SiteConfig?, matched: string) {
    if exists q: nat, i: nat :: FirstHost(sites, queries, q, i) then
      exists q: nat, i: nat, n: nat :: FirstHost(sites, queries, q, i) && PrefixFound(sites[Pattern(queries[q], i)], path, n, site, matched)
    else site == null && matched == ""
  }

  ghost predicate PrefixFound(paths: map<string, SiteConfig?>, path: string, n: nat, site: SiteConfig?, matched: string) {
    && LongestPrefix(paths, path, n)
    && (if n == 0 then site == null && matched == "" else matched == path[..n] && site == paths[matched])
  }

  /** The reference has one answer. */
  lemma {:induction false} MatchesOnce(sites: Sites, queries: seq<string>, path: string, site: SiteConfig?, matched: string,
                                       site': SiteConfig?, matched': string)
    requires Matches(sites, queries, path, site, matched) && Matches(sites, queries, path, site', matched')
    ensures site == site' && matched == matched'
  {
    if exists q: nat, i: nat :: FirstHost(sites, queries, q, i) {
      var q: nat, i: nat, n: nat :| FirstHost(sites, queries, q, i) && PrefixFound(sites[Pattern(queries[q], i)], path, n, site, matched);
      var q': nat, i': nat, n': nat :| FirstHost(sites, queries, q', i') && PrefixFound(sites[Pattern(queries[q'], i')], path, n', site', matched');
      FirstHostOnce(sites, queries, q, i, q', i');
    }
  }

  lemma {:induction false} FirstHostOnce(sites: Sites, queries: seq<string>, q: nat, i: nat, q': nat, i': nat)
    requires FirstHost(sites, queries, q, i) && FirstHost(sites, queries, q', i')
    ensures q == q' && i == i'
  {
  }

  /** The first host that is named decides: a path it does not serve is served by no other host. */
  lemma {:induction false} NoBacktracking(sites: Sites, queries: seq<string>, path: string, site: SiteConfig?, matched: string, q: nat, i: nat)
    requires Matches(sites, queries, path, site, matched) && FirstHost(sites, queries, q, i)
    ensures site != null <==> exists m :: 0 < m <= |path| && !Bare(sites[Pattern(queries[q], i)], path[..m])
    ensures site != null ==> matched <= path && matched != ""
  {
    var q': nat, i': nat, n: nat :| FirstHost(sites, queries, q', i') && PrefixFound(sites[Pattern(queries[q'], i')], path, n, site, matched);
    FirstHostOnce(sites, queries, q, i, q', i');
  }

  /** A host that is not named itself is served by the wildcard for its first label. */
  lemma {:induction false} WildcardServes(sites: Sites, name: string, rest: string, more: seq<string>)
    requires '.' !in name && name + "." + rest !in sites && "*." + rest in sites
    ensures FirstHost(sites, [name + "." + rest] + more, 0, 1)
  {
    PatternStep(name, rest, 0);
    PatternZero(rest);
  }

  // ----- runs of inserts -----

  datatype Entry = Entry(host: string, path: string, site: SiteConfig?)

  /** The plain map after a sequence of inserts. */
  ghost function After(log: seq<Entry>): Sites {
    if log == [] then map[]
    else
      var e := log[|log| - 1];
      Put(After(log[..|log| - 1]), e.host, e.path, e.site)
  }

  /** Insert k is the last one for its host and path. */
  ghost predicate LastFor(log: seq<Entry>, k: nat) {
    k < |log| && forall j :: k < j < |log| ==> log[j].host != log[k].host || log[j].path != log[k].path
  }

  lemma {:induction false} LastInsertWins(log: seq<Entry>, k: nat)
    requires LastFor(log, k)
    ensures var e := log[k];
            e.host in After(log) && e.path in After(log)[e.host] && After(log)[e.host][e.path] == e.site
    decreases |log|
  {
    var before := log[..|log| - 1];
    if k < |log| - 1 {
      assert log[|log| - 1].host != log[k].host || log[|log| - 1].path != log[k].path;
      LastInsertWins(before, k);
    }
  }

  /** The map holds nothing that was not inserted. */
  lemma {:induction false} OnlyInserted(log: seq<Entry>, host: string, path: string)
    requires host in After(log)
    ensures exists k :: 0 <= k < |log| && log[k].host == host
    ensures path in After(log)[host] ==> exists k :: 0 <= k < |log| && log[k].host == host && log[k].path == path
    decreases |log|
  {
    var e, before := log[|log| - 1], log[..|log| - 1];
    if e.host != host || (host in After(before) && path in After(before)[host]) {
      OnlyInserted(before, host, path);
    }
  }

  // ----- the trie as a table of addresses -----

  /** A host, then the bytes of a path. */
  type Address = seq<string>

  datatype Mark = Mark(site: SiteConfig?, path: string)

  function Child(a: Address, k: string): Address {
    a + [k]
  }

  function Along(a: Address, path: string, n: nat): Address
    requires n <= |path|
  {
    if n == 0 then a else Child(Along(a, path, n - 1), [path[n - 1]])
  }

  function HostAt(host: string): Address {
    Child([], host)
  }

  function PathAt(host: string, path: string): Address {
    Along(HostAt(host), path, |path|)
  }

  /** With a node there are all nodes above it. */
  ghost predicate Closed(table: map<Address, Mark>) {
    forall a, k :: Child(a, k) in table ==> a in table
  }

  ghost function Grown(table: map<Address, Mark>, a: Address): map<Address, Mark> {
    if a in table then table else table[a := Mark(null, "")]
  }

  ghost function Inserted(table: map<Address, Mark>, a: Address, path: string, mark: Mark): map<Address, Mark>
    decreases |path|
  {
    if path == "" then table[a := mark]
    else
      var c := Child(a, [path[0]]);
      Inserted(Grown(table, c), c, path[1..], mark)
  }

  /** The table holds the sites of the plain map at their addresses, and no others. */
  ghost predicate Refines(table: map<Address, Mark>, sites: Sites) {
    && (forall h :: h in sites <==> HostAt(h) in table)
    && (forall h, p :: h in sites && p in sites[h] ==> p != "" && PathAt(h, p) in table && table[PathAt(h, p)] == Mark(sites[h][p], p))
    && (forall h, p :: p != "" && PathAt(h, p) in table && table[PathAt(h, p)].site != null ==> h in sites && p in sites[h])
  }

  lemma {:induction false} AlongFacts(a: Address, path: string, n: nat)
    requires n <= |path|
    ensures |Along(a, path, n)| == |a| + n && a <= Along(a, path, n)
    ensures forall i :: 0 <= i < n ==> Along(a, path, n)[|a| + i] == [path[i]]
  {
    if n > 0 {
      AlongFacts(a, path, n - 1);
    }
  }

  lemma {:induction false} AlongShift(a: Address, path: string, n: nat)
    requires 0 < n <= |path|
    ensures Along(a, path, n) == Along(Child(a, [path[0]]), path[1..], n - 1)
  {
    if n > 1 {
      AlongShift(a, path, n - 1);
    }
  }

  lemma {:induction false} AlongPrefix(a: Address, path: string, n: nat, m: nat)
    requires m <= n <= |path|
    ensures Along(a, path[..n], m) == Along(a, path, m)
  {
    if m > 0 {
      AlongPrefix(a, path, n, m - 1);
    }
  }

  /** Addresses of different hosts or paths differ. */
  lemma {:induction false} PathAtInjective(h: string, p: string, h': string, p': string)
    requires PathAt(h, p) == PathAt(h', p')
    ensures h == h' && p == p'
  {
    AlongFacts(HostAt(h), p, |p|);
    AlongFacts(HostAt(h'), p', |p'|);
    assert PathAt(h, p)[0] == HostAt(h)[0] == h && PathAt(h', p')[0] == HostAt(h')[0] == h';
    forall i | 0 <= i < |p| ensures p[i] == p'[i] {
      assert PathAt(h, p)[1 + i] == [p[i]] && PathAt(h', p')[1 + i] == [p'[i]];
    }
  }

  // ----- what inserting does to the table -----

  ghost predicate OnPath(b: Address, a: Address, path: string) {
    exists n :: 0 <= n <= |path| && b == Along(a, path, n)
  }

  /** At address b: new keys are the nodes along the path; only the mark at its end changes. */
  lemma {:induction false} InsertedIs(table: map<Address, Mark>, a: Address, path: string, mark: Mark, b: Address)
    requires a in table
    ensures var t' := Inserted(table, a, path, mark);
            && (b in t' <==> b in table || OnPath(b, a, path))
            && (b in t' ==> t'[b] == if b == Along(a, path, |path|) then mark else if b in table then table[b] else Mark(null, ""))
    decreases |path|
  {
    if path == "" {
      assert Along(a, path, 0) == a;
    } else {
      var c := Child(a, [path[0]]);
      InsertedIs(Grown(table, c), c, path[1..], mark, b);
      AlongShift(a, path, |path|);
      StepAlong(table, a, path, b);
    }
  }

  lemma {:induction false} StepAlong(table: map<Address, Mark>, a: Address, path: string, b: Address)
    requires path != "" && a in table
    ensures (b in Grown(table, Child(a, [path[0]])) || OnPath(b, Child(a, [path[0]]), path[1..])) <==> (b in table || OnPath(b, a, path))
  {
    var c := Child(a, [path[0]]);
    assert Along(a, path, 0) == a && Along(a, path, 1) == c;
    if OnPath(b, c, path[1..]) {
      var n :| 0 <= n <= |path| - 1 && b == Along(c, path[1..], n);
      AlongShift(a, path, n + 1);
    }
    if OnPath(b, a, path) {
      var n :| 0 <= n <= |path| && b == Along(a, path, n);
      if n > 0 {
        AlongShift(a, path, n);
      }
    }
  }

  /** Inserting a path below a host refines putting it into the plain map. */
  lemma {:induction false} InsertRefines(table: map<Address, Mark>, sites: Sites, host: string, path: string, site: SiteConfig?)
    requires Refines(table, sites) && path != ""
    ensures Refines(Inserted(Grown(table, HostAt(host)), HostAt(host), path, Mark(site, path)), Put(sites, host, path, site))
  {
    var t := Grown(table, HostAt(host));
    var t' := Inserted(t, HostAt(host), path, Mark(site, path));
    var s' := Put(sites, host, path, site);
    forall h ensures h in s' <==> HostAt(h) in t' {
      HostKept(t, host, path, Mark(site, path), h);
      assert HostAt(h)[0] == h && HostAt(host)[0] == host;
    }
    forall h, p | p != ""
      ensures h in s' && p in s'[h] ==> PathAt(h, p) in t' && t'[PathAt(h, p)] == Mark(s'[h][p], p)
      ensures PathAt(h, p) in t' && t'[PathAt(h, p)].site != null ==> h in s' && p in s'[h]
    {
      PathKept(table, sites, host, path, site, h, p);
    }
  }

  lemma {:induction false} PathKept(table: map<Address, Mark>, sites: Sites, host: string, path: string, site: SiteConfig?, h: string, p: string)
    requires Refines(table, sites) && path != "" && p != ""
    ensures var t' := Inserted(Grown(table, HostAt(host)), HostAt(host), path, Mark(site, path));
            var s' := Put(sites, host, path, site);
            && (h in s' && p in s'[h] ==> PathAt(h, p) in t' && t'[PathAt(h, p)] == Mark(s'[h][p], p))
            && (PathAt(h, p) in t' && t'[PathAt(h, p)].site != null ==> h in s' && p in s'[h])
  {
    var t := Grown(table, HostAt(host));
    InsertedIs(t, HostAt(host), path, Mark(site, path), PathAt(h, p));
    if PathAt(h, p) == PathAt(host, path) {
      PathAtInjective(h, p, host, path);
      assert OnPath(PathAt(h, p), HostAt(host), path);
    } else {
      AlongFacts(HostAt(h), p, |p|);
      assert |PathAt(h, p)| == 1 + |p| && |HostAt(host)| == 1;
    }
  }

  lemma {:induction false} HostKept(t: map<Address, Mark>, host: string, path: string, mark: Mark, h: string)
    requires HostAt(host) in t
    ensures HostAt(h) in Inserted(t, HostAt(host), path, mark) <==> HostAt(h) in t
  {
    InsertedIs(t, HostAt(host), path, mark, HostAt(h));
    if OnPath(HostAt(h), HostAt(host), path) {
      var n :| 0 <= n <= |path| && HostAt(h) == Along(HostAt(host), path, n);
      AlongFacts(HostAt(host), path, n);
    }
  }

  lemma {:induction false} ChildrenOf(a: Address, k: string)
    ensures forall b, l :: Child(b, l) == Child(a, k) ==> b == a && l == k
  {
    forall b, l | Child(b, l) == Child(a, k) ensures b == a && l == k {
      assert b == Child(b, l)[..|b|] && a == Child(a, k)[..|a|];
      assert l == Child(b, l)[|b|] && k == Child(a, k)[|a|];
    }
  }

  // ----- keys -----

  /** The key up to its first slash. */
  function HostPart(key: string): (host: string)
    ensures host <= key && '/' !in host && (host == key || key[|host|] == '/')
  {
    if key == "" || key[0] == '/' then "" else [key[0]] + HostPart(key[1..])
  }

  /** The key from its first slash on, or a lone slash. */
  function PathPart(key: string): (path: string)
    ensures if '/' in key then HostPart(key) + path == key else path == "/"
    ensures path != "" && path[0] == '/'
  {
    if HostPart(key) == key then "/" else key[|HostPart(key)|..]
  }

  // ----- the trie -----

  /** The nodes of a trie by address. */
  type World = map<Address, VHostTrie>

  /** The nodes are linked by their edges and by nothing else, and carry the marks of the table. */
  ghost predicate Linked(world: World, table: map<Address, Mark>)
    reads world.Values
  {
    && world.Keys == table.Keys
    && (forall a :: a in world ==> world[a].at == a && world[a].site == table[a].site && world[a].path == table[a].path)
    && (forall a, k :: a in world && k in world[a].edges ==> Child(a, k) in world && world[a].edges[k] == world[Child(a, k)])
    && (forall a, k :: Child(a, k) in world ==> a in world && k in world[a].edges)
  }

  class VHostTrie {
    var fallbackHosts: seq<string>
    var edges: map<string, VHostTrie>
    var site: SiteConfig?
    var path: string
    // where the node stands
    ghost const at: Address

    constructor (ghost at: Address)
      ensures fallbackHosts == ["0.0.0.0", "[::]", ""] && edges == map[] && site == null && path == "" && this.at == at
    {
      fallbackHosts, edges, site, path := ["0.0.0.0", "[::]", ""], map[], null, "";
      this.at := at;
    }

    /** This is the root of a trie that holds the sites. */
    ghost predicate Holds(world: World, table: map<Address, Mark>, sites: Sites)
      reads world.Values
    {
      [] in world && world[[]] == this && Linked(world, table) && Refines(table, sites)
    }

    /** The edge k, made if it is missing. */
    method Grow(k: string, ghost world: World, ghost table: map<Address, Mark>) returns (ghost world': World)
      requires Linked(world, table) && at in world && world[at] == this
      modifies this`edges
      ensures Linked(world', Grown(table, Child(at, k)))
      ensures k in edges && Child(at, k) in world' && edges[k] == world'[Child(at, k)]
      ensures forall a :: a in world ==> a in world' && world'[a] == world[a]
      ensures forall a :: a in world' && a !in world ==> fresh(world'[a])
    {
      world' := world;
      if k !in edges {
        var node := new VHostTrie(Child(at, k));
        edges := edges[k := node];
        world' := world[Child(at, k) := node];
        ChildrenOf(at, k);
      }
    }

    method InsertPath(remaining: string, original: string, site: SiteConfig?, ghost world: World, ghost table: map<Address, Mark>)
      returns (ghost world': World)
      requires Linked(world, table) && at in world && world[at] == this
      modifies world.Values`edges, world.Values`site, world.Values`path
      ensures Linked(world', Inserted(table, at, remaining, Mark(site, original)))
      ensures forall a :: a in world ==> a in world' && world'[a] == world[a]
      ensures forall a :: a in world' && a !in world ==> fresh(world'[a])
      decreases |remaining|
    {
      if remaining == "" {
        this.site, path := site, original;
        world' := world;
      } else {
        var ch := [remaining[0]];
        world' := Grow(ch, world, table);
        world' := edges[ch].InsertPath(remaining[1..], original, site, world', Grown(table, Child(at, ch)));
      }
    }

    method Insert(key: string, site: SiteConfig?, standard: string -> string, ghost world: World, ghost table: map<Address, Mark>, ghost sites: Sites)
      returns (ghost world': World, ghost table': map<Address, Mark>)
      requires Holds(world, table, sites)
      modifies world.Values`edges, world.Values`site, world.Values`path
      ensures Holds(world', table', Put(sites, standard(HostPart(key)), PathPart(key), site))
      ensures forall a :: a in world ==> a in world' && world'[a] == world[a]
      ensures forall a :: a in world' && a !in world ==> fresh(world'[a])
    {
      var host, path := standard(HostPart(key)), PathPart(key);
      table' := Grown(table, HostAt(host));
      world' := Grow(host, world, table);
      world' := edges[host].InsertPath(path, path, site, world', table');
      table' := Inserted(table', HostAt(host), path, Mark(site, path));
      InsertRefines(table, sites, host, path, site);
    }

    /** Node for the longest prefix of the path that has a site; its length is n, or 0 if there is none. */
    method MatchPath(path: string, ghost world: World, ghost table: map<Address, Mark>) returns (longest: VHostTrie?, ghost n: nat)
      requires Linked(world, table) && at in world && world[at] == this
      ensures longest == null <==> forall m :: 0 < m <= |path| && Along(at, path, m) in table ==> table[Along(at, path, m)].site == null
      ensures n <= |path| && (longest == null <==> n == 0)
      ensures n > 0 ==> Along(at, path, n) in world && longest == world[Along(at, path, n)] && longest.site != null
      ensures forall m :: n < m <= |path| && Along(at, path, m) in table ==> table[Along(at, path, m)].site == null
    {
      var t, i := this, 0;
      longest, n := null, 0;
      while i < |path|
        invariant n <= i <= |path| && (longest == null <==> n == 0)
        invariant Along(at, path, i) in world && t == world[Along(at, path, i)]
        invariant n > 0 ==> Along(at, path, n) in world && longest == world[Along(at, path, n)] && longest.site != null
        invariant forall m :: n < m <= i && Along(at, path, m) in table ==> table[Along(at, path, m)].site == null
      {
        var ch := [path[i]];
        if ch !in t.edges {
          assert Along(at, path, i + 1) == Child(Along(at, path, i), ch);
          NothingBeyond(table, at, path, i + 1);
          break;
        }
        var next := t.edges[ch];
        if next.site != null {
          longest, n := next, i + 1;
        }
        t, i := next, i + 1;
      }
    }

    /** The host of the first pattern that has an edge; its index is i. */
    method MatchHost(host: string) returns (node: VHostTrie?, ghost i: nat)
      ensures node == null <==> forall j :: 0 <= j <= |Split(host, '.')| ==> Pattern(host, j) !in edges
      ensures NoneBelow(host, i)
      ensures node == null ==> i > |Split(host, '.')|
      ensures node != null ==> i <= |Split(host, '.')| && Pattern(host, i) in edges && node == edges[Pattern(host, i)]
    {
      PatternZero(host);
      node, i := null, 0;
      if host in edges {
        node := edges[host];
      } else {
        var parts := Split(host, '.');
        var labels := new string[|parts|](k requires 0 <= k < |parts| => parts[k]);
        i := 1;
        assert labels[..] == Starred(parts, 0);
        var k := 0;
        while k < labels.Length && node == null
          invariant 0 <= k <= labels.Length == |parts|
          invariant if node == null then i == k + 1 && labels[..] == Starred(parts, k) else 1 <= i <= |parts|
          invariant NoneBelow(host, i)
          invariant node != null ==> Pattern(host, i) in edges && node == edges[Pattern(host, i)]
        {
          labels[k] := "*";
          StarredStep(parts, k);
          assert labels[..] == Starred(parts, k)[k := "*"];
          var candidate := Join(labels[..], '.');
          if candidate in edges {
            node := edges[candidate];
          } else {
            i := i + 1;
          }
          k := k + 1;
        }
      }
    }

    /** No edge for the first i patterns. */
    ghost predicate NoneBelow(host: string, i: nat)
      reads this
    {
      forall j :: 0 <= j < i && j <= |Split(host, '.')| ==> Pattern(host, j) !in edges
    }

    /** The query and the pattern that name the first host. */
    method MatchQueries(host: string, ghost sites: Sites) returns (branch: VHostTrie?, ghost q: nat, ghost i: nat)
      requires edges.Keys == sites.Keys
      ensures branch == null ==> forall p :: 0 <= p < |[host] + fallbackHosts| ==> NoHost(sites, ([host] + fallbackHosts)[p])
      ensures branch != null ==>
                && FirstHost(sites, [host] + fallbackHosts, q, i)
                && branch == edges[Pattern(([host] + fallbackHosts)[q], i)]
    {
      ghost var queries := [host] + fallbackHosts;
      q := 0;
      branch, i := MatchHost(host);
      assert queries[0] == host;
      var k := 0;
      while k < |fallbackHosts| && branch == null
        invariant 0 <= k <= |fallbackHosts|
        invariant branch == null ==> forall p :: 0 <= p <= k ==> NoHost(sites, queries[p])
        invariant branch != null ==> FirstHost(sites, queries, q, i) && branch == edges[Pattern(queries[q], i)]
      {
        branch, i := MatchHost(fallbackHosts[k]);
        k := k + 1;
        q := k;
        assert queries[q] == fallbackHosts[k - 1];
      }
    }

    method Match(key: string, standard: string -> string, ghost world: World, ghost table: map<Address, Mark>, ghost sites: Sites)
      returns (site: SiteConfig?, matched: string)
      requires Holds(world, table, sites)
      ensures Matches(sites, [standard(HostPart(key))] + fallbackHosts, PathPart(key), site, matched)
    {
      var host, path := standard(HostPart(key)), PathPart(key);
      ghost var queries := [host] + fallbackHosts;
      HostEdges(world, table, sites);
      var branch;
      ghost var q, i;
      branch, q, i := MatchQueries(host, sites);
      site, matched := null, "";
      if branch != null {
        ghost var pattern := Pattern(queries[q], i);
        var node;
        ghost var n;
        node, n := branch.MatchPath(path, world, table);
        PrefixInTable(table, sites, pattern, path, n);
        if node != null {
          site, matched := node.site, node.path;
        }
        assert PrefixFound(sites[pattern], path, n, site, matched);
      }
    }

    /** The edges of the root lead to the hosts. */
    lemma HostEdges(world: World, table: map<Address, Mark>, sites: Sites)
      requires Holds(world, table, sites)
      ensures edges.Keys == sites.Keys
      ensures forall h :: h in edges ==> HostAt(h) in world && edges[h] == world[HostAt(h)]
    {
      forall h ensures h in edges <==> h in sites {
        assert h in sites <==> HostAt(h) in world;
      }
    }
  }

  /** Below a missing node there is none. */
  lemma {:induction false} NothingBeyond(table: map<Address, Mark>, a: Address, path: string, i: nat)
    requires Closed(table) && i <= |path| && Along(a, path, i) !in table
    ensures forall m :: i <= m <= |path| ==> Along(a, path, m) !in table
  {
    forall m | i <= m <= |path| ensures Along(a, path, m) !in table {
      MissingBeyond(table, a, path, i, m);
    }
  }

  lemma {:induction false} MissingBeyond(table: map<Address, Mark>, a: Address, path: string, i: nat, m: nat)
    requires Closed(table) && i <= m <= |path| && Along(a, path, i) !in table
    ensures Along(a, path, m) !in table
    decreases m
  {
    if i < m {
      MissingBeyond(table, a, path, i, m - 1);
    }
  }

  /** A longest prefix in the table is one in the plain map. */
  lemma {:induction false} PrefixInTable(table: map<Address, Mark>, sites: Sites, host: string, path: string, n: nat)
    requires Refines(table, sites) && host in sites && n <= |path|
    requires n > 0 ==> Along(HostAt(host), path, n) in table && table[Along(HostAt(host), path, n)].site != null
    requires forall m :: n < m <= |path| && Along(HostAt(host), path, m) in table ==> table[Along(HostAt(host), path, m)].site == null
    ensures LongestPrefix(sites[host], path, n)
    ensures n > 0 ==> table[Along(HostAt(host), path, n)] == Mark(sites[host][path[..n]], path[..n])
  {
    forall m | 1 <= m <= |path| ensures Along(HostAt(host), path, m) == PathAt(host, path[..m]) {
      AlongPrefix(HostAt(host), path, m, m);
    }
    if n > 0 {
      assert Along(HostAt(host), path, n) == PathAt(host, path[..n]);
    }
    forall m | n < m <= |path| ensures Bare(sites[host], path[..m]) {
      assert Along(HostAt(host), path, m) == PathAt(host, path[..m]);
    }
  }

  // ----- a server's table of hosts -----

  /** The inserts made for a group of sites. */
  ghost function LogOf(vhosts: seq<string>, group: seq<SiteConfig?>, standard: string -> string): seq<Entry>
    requires |vhosts| == |group|
  {
    seq(|vhosts|, i requires 0 <= i < |vhosts| => Entry(standard(HostPart(vhosts[i])), PathPart(vhosts[i]), group[i]))
  }

  /** The trie of a new server. */
  method NewVHosts(vhosts: seq<string>, group: seq<SiteConfig?>, fallbacks: seq<string>, standard: string -> string)
    returns (t: VHostTrie, ghost world: World, ghost table: map<Address, Mark>)
    requires |vhosts| == |group|
    ensures t.Holds(world, table, After(LogOf(vhosts, group, standard)))
    ensures t.fallbackHosts == ["0.0.0.0", "[::]", ""] + fallbacks
  {
    t := new VHostTrie([]);
    t.fallbackHosts := t.fallbackHosts + fallbacks;
    world, table := map[[] := t], map[[] := Mark(null, "")];
    EmptyRefines();
    world, table := InsertAll(t, vhosts, group, standard, world, table);
  }

  method InsertAll(t: VHostTrie, vhosts: seq<string>, group: seq<SiteConfig?>, standard: string -> string,
                   ghost world: World, ghost table: map<Address, Mark>)
    returns (ghost world': World, ghost table': map<Address, Mark>)
    requires |vhosts| == |group| && t.Holds(world, table, map[])
    modifies world.Values`edges, world.Values`site, world.Values`path
    ensures t.Holds(world', table', After(LogOf(vhosts, group, standard)))
  {
    ghost var log := LogOf(vhosts, group, standard);
    world', table' := world, table;
    var k := 0;
    while k < |vhosts|
      invariant 0 <= k <= |vhosts|
      invariant t.Holds(world', table', After(log[..k]))
      invariant forall a :: a in world' ==> world'[a] in world.Values || fresh(world'[a])
    {
      AfterStep(log, k);
      world', table' := t.Insert(vhosts[k], group[k], standard, world', table', After(log[..k]));
      k := k + 1;
    }
    assert log[..k] == log;
  }

  lemma {:induction false} AfterStep(log: seq<Entry>, k: nat)
    requires k < |log|
    ensures After(log[..k + 1]) == Put(After(log[..k]), log[k].host, log[k].path, log[k].site)
  {
    assert log[..k + 1][..k] == log[..k];
  }

  lemma {:induction false} EmptyRefines()
    ensures Refines(map[[] := Mark(null, "")], map[])
  {
    forall h, p ensures PathAt(h, p) != [] {
      AlongFacts(HostAt(h), p, |p|);
    }
  }

  /** A request is routed as the plain map of all sites of the server says. */
  method Route(vhosts: seq<string>, group: seq<SiteConfig?>, fallbacks: seq<string>, standard: string -> string, key: string)
    returns (site: SiteConfig?, matched: string)
    requires |vhosts| == |group|
    ensures Matches(After(LogOf(vhosts, group, standard)), [standard(HostPart(key))] + (["0.0.0.0", "[::]", ""] + fallbacks),
                    PathPart(key), site, matched)
  {
    var t;
    ghost var world, table;
    t, world, table := NewVHosts(vhosts, group, fallbacks, standard);
    site, matched := t.Match(key, standard, world, table, After(LogOf(vhosts, group, standard)));
  }
}
