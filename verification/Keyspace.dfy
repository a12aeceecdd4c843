/** The key layout of the registry: a flat keyspace that stands for hosts and statistics per index and shard. */
module Keyspace {
  import opened Prelude

  // ------------------------------------------------------------------------ paths

  const SLASH: char := '/'

  ghost predicate SlashFree(s: string) {
    SLASH !in s
  }

  function Path(a: string, b: string): string {
    a + [SLASH] + b
  }

  /** Below a slash-free first part, prefixes are prefixes of what follows it. */
  lemma {:induction false} PathPrefix(a: string, b: string, c: string, d: string)
    requires SlashFree(a) && SlashFree(c)
    ensures Path(a, b) <= Path(c, d) <==> a == c && b <= d
  {
    var p, q := Path(a, b), Path(c, d);
    assert p[|a|] == SLASH && q[|c|] == SLASH;
    assert p[|a| + 1..] == b && q[|c| + 1..] == d;
    if p <= q {
      assert q[|a|] == SLASH;
      assert forall i :: 0 <= i < |c| ==> q[i] == c[i] != SLASH;
      assert forall i :: 0 <= i < |a| ==> q[i] == p[i] == a[i] != SLASH;
      assert |a| == |c|;
      assert p[..|a|] == a && q[..|a|] == c;
      assert q[..|p|] == p && q[..|p|][|a| + 1..] == d[..|b|];
    }
  }

  lemma {:induction false} PathInjective(a: string, b: string, c: string, d: string)
    requires SlashFree(a) && SlashFree(c)
    ensures Path(a, b) == Path(c, d) <==> a == c && b == d
  {
    if Path(a, b) == Path(c, d) {
      PathPrefix(a, b, c, d);
      PathPrefix(c, d, a, b);
    }
  }

  /** `boost::algorithm::split` on slashes. */
  function Split(s: string): (parts: seq<string>)
    ensures |parts| >= 1
  {
    if s == "" then [""]
    else if s[0] == SLASH then [""] + Split(s[1..])
    else var parts := Split(s[1..]); [[s[0]] + parts[0]] + parts[1..]
  }

  lemma {:induction false} SplitPath(a: string, b: string)
    requires SlashFree(a)
    ensures Split(Path(a, b)) == [a] + Split(b)
  {
    if a == "" {
      assert Path(a, b)[1..] == b;
    } else {
      assert Path(a, b)[1..] == Path(a[1..], b);
      assert a == [a[0]] + a[1..];
      SplitPath(a[1..], b);
    }
  }

  /** Joining the parts with slashes gives the text back. */
  function Joined(parts: seq<string>): string
    requires |parts| >= 1
  {
    if |parts| == 1 then parts[0] else Path(parts[0], Joined(parts[1..]))
  }

  lemma {:induction false} JoinSplit(s: string)
    ensures Joined(Split(s)) == s
    ensures forall i :: 0 <= i < |Split(s)| ==> SlashFree(Split(s)[i])
  {
    if s != "" {
      JoinSplit(s[1..]);
      var parts := Split(s[1..]);
      if s[0] == SLASH {
        assert ([""] + parts)[1..] == parts;
      } else {
        assert |parts| > 1 ==> Split(s)[1..] == parts[1..];
      }
      assert s == [s[0]] + s[1..];
    }
  }

  // --------------------------------------------------------------------- registry

  datatype Host = Host(index: string, shard: string, addr: string)
  datatype ShardName = ShardName(index: string, shard: string)

  /** What the keyspace stands for. */
  datatype Registry = Registry(hosts: set<Host>, times: map<ShardName, string>)

  type Keys = map<string, string>

  function HostKey(h: Host): string {
    h.index + "/searchers/" + h.shard + "/hosts/" + h.addr
  }

  function TimeKey(p: ShardName): string {
    p.index + "/searchers/" + p.shard + "/stats/average_response_time"
  }

  /** The prefix asked for the hosts of an index, or of one shard. */
  function HostsPrefix(index: string, shard: Option<string>): string {
    if shard.None? then index + "/searchers" else index + "/searchers" + "/" + shard.value + "/hosts"
  }

  function HostTail(h: Host): string {
    Path(h.shard, Path("hosts", h.addr))
  }

  function TimeTail(p: ShardName): string {
    Path(p.shard, Path("stats", "average_response_time"))
  }

  lemma {:induction false} Regrouped(a: string, b: string, c: string, d: string)
    ensures a + "/searchers/" + b + c == Path(a, Path("searchers", b + c))
    ensures b + ("/" + c + "/" + d) == Path(b, Path(c, d))
  {
    assert "/searchers/" == "/" + "searchers" + "/";
  }

  lemma {:induction false} KeyPaths(h: Host, p: ShardName)
    ensures HostKey(h) == Path(h.index, Path("searchers", HostTail(h)))
    ensures TimeKey(p) == Path(p.index, Path("searchers", TimeTail(p)))
  {
    Regrouped(h.index, h.shard, "/hosts/" + h.addr, "");
    Regrouped("", h.shard, "hosts", h.addr);
    assert "/" + "hosts" + "/" + h.addr == "/hosts/" + h.addr;
    assert HostKey(h) == h.index + "/searchers/" + h.shard + ("/hosts/" + h.addr);
    Regrouped(p.index, p.shard, "/stats/average_response_time", "");
    Regrouped("", p.shard, "stats", "average_response_time");
    assert "/" + "stats" + "/" + "average_response_time" == "/stats/average_response_time";
  }

  lemma {:induction false} PrefixPaths(index: string, shard: string)
    ensures HostsPrefix(index, None) == Path(index, "searchers")
    ensures HostsPrefix(index, Some(shard)) == Path(index, Path("searchers", Path(shard, "hosts")))
  {
  }

  ghost predicate NamedHost(h: Host) {
    SlashFree(h.index) && SlashFree(h.shard)
  }

  ghost predicate NamedPlace(p: ShardName) {
    SlashFree(p.index) && SlashFree(p.shard)
  }

  lemma {:induction false} Words()
    ensures SlashFree("searchers") && SlashFree("hosts") && SlashFree("stats")
    ensures "searchers" <= Path("searchers", "") && !("hosts" <= "stats/average_response_time")
  {
    assert "hosts"[0] != "stats/average_response_time"[0];
  }

  lemma {:induction false} HostKeyInjective(h: Host, g: Host)
    requires NamedHost(h) && NamedHost(g)
    ensures HostKey(h) == HostKey(g) <==> h == g
  {
    Words();
    KeyPaths(h, ShardName("", ""));
    KeyPaths(g, ShardName("", ""));
    PathInjective(h.index, Path("searchers", HostTail(h)), g.index, Path("searchers", HostTail(g)));
    PathInjective("searchers", HostTail(h), "searchers", HostTail(g));
    PathInjective(h.shard, Path("hosts", h.addr), g.shard, Path("hosts", g.addr));
    PathInjective("hosts", h.addr, "hosts", g.addr);
  }

  lemma {:induction false} TimeKeyInjective(p: ShardName, q: ShardName)
    requires NamedPlace(p) && NamedPlace(q)
    ensures TimeKey(p) == TimeKey(q) <==> p == q
  {
    Words();
    KeyPaths(Host("", "", ""), p);
    KeyPaths(Host("", "", ""), q);
    PathInjective(p.index, Path("searchers", TimeTail(p)), q.index, Path("searchers", TimeTail(q)));
    PathInjective("searchers", TimeTail(p), "searchers", TimeTail(q));
    PathInjective(p.shard, Path("stats", "average_response_time"), q.shard, Path("stats", "average_response_time"));
  }

  lemma {:induction false} KindsApart(h: Host, p: ShardName)
    requires NamedHost(h) && NamedPlace(p)
    ensures HostKey(h) != TimeKey(p)
  {
    Words();
    KeyPaths(h, p);
    PathInjective(h.index, Path("searchers", HostTail(h)), p.index, Path("searchers", TimeTail(p)));
    PathInjective("searchers", HostTail(h), "searchers", TimeTail(p));
    PathInjective(h.shard, Path("hosts", h.addr), p.shard, Path("stats", "average_response_time"));
    PathInjective("hosts", h.addr, "stats", "average_response_time");
  }

  // ------------------------------------------------------------------- operations

  datatype Update =
    | AddHost(host: Host)
    | RemoveHost(host: Host)
    | UpdateTime(place: ShardName, value: string)

  ghost predicate Named(u: Update) {
    match u
    case AddHost(h) => NamedHost(h)
    case RemoveHost(h) => NamedHost(h)
    case UpdateTime(p, _) => NamedPlace(p)
  }

  /** What an update does to the flat keyspace. */
  function Apply(ks: Keys, u: Update): Keys {
    match u
    case AddHost(h) => ks[HostKey(h) := h.addr]
    case RemoveHost(h) => ks - {HostKey(h)}
    case UpdateTime(p, v) => ks[TimeKey(p) := v]
  }

  /** What it means. */
  function Record(r: Registry, u: Update): Registry {
    match u
    case AddHost(h) => r.(hosts := r.hosts + {h})
    case RemoveHost(h) => r.(hosts := r.hosts - {h})
    case UpdateTime(p, v) => r.(times := r.times[p := v])
  }

  function ApplyAll(ks: Keys, us: seq<Update>): Keys
    decreases |us|
  {
    if us == [] then ks else ApplyAll(Apply(ks, us[0]), us[1..])
  }

  function RecordAll(r: Registry, us: seq<Update>): Registry
    decreases |us|
  {
    if us == [] then r else RecordAll(Record(r, us[0]), us[1..])
  }

  ghost predicate IsHostKey(r: Registry, k: string) {
    exists h :: h in r.hosts && HostKey(h) == k
  }

  ghost predicate IsTimeKey(r: Registry, k: string) {
    exists p :: p in r.times && TimeKey(p) == k
  }

  ghost predicate WellNamed(r: Registry) {
    (forall h :: h in r.hosts ==> NamedHost(h)) && (forall p :: p in r.times ==> NamedPlace(p))
  }

  /** The keyspace holds the keys of the registry and no others. */
  ghost predicate StandsFor(ks: Keys, r: Registry) {
    && WellNamed(r)
    && (forall h :: h in r.hosts ==> HostKey(h) in ks && ks[HostKey(h)] == h.addr)
    && (forall p :: p in r.times ==> TimeKey(p) in ks && ks[TimeKey(p)] == r.times[p])
    && (forall k :: k in ks ==> IsHostKey(r, k) || IsTimeKey(r, k))
  }

  lemma {:induction false} KeyLasts(r: Registry, r': Registry, k: string)
    requires r.hosts <= r'.hosts && r.times.Keys <= r'.times.Keys
    requires IsHostKey(r, k) || IsTimeKey(r, k)
    ensures IsHostKey(r', k) || IsTimeKey(r', k)
  {
    if IsHostKey(r, k) {
      var h :| h in r.hosts && HostKey(h) == k;
      assert h in r'.hosts;
    } else {
      var p :| p in r.times && TimeKey(p) == k;
      assert p in r'.times;
    }
  }

  lemma {:induction false} AddHostKeeps(ks: Keys, r: Registry, h: Host)
    requires StandsFor(ks, r) && NamedHost(h)
    ensures StandsFor(Apply(ks, AddHost(h)), Record(r, AddHost(h)))
  {
    var ks', r' := Apply(ks, AddHost(h)), Record(r, AddHost(h));
    forall g | g in r'.hosts ensures HostKey(g) in ks' && ks'[HostKey(g)] == g.addr {
      HostKeyInjective(g, h);
    }
    forall p | p in r'.times ensures TimeKey(p) in ks' && ks'[TimeKey(p)] == r'.times[p] {
      KindsApart(h, p);
    }
    forall k | k in ks' ensures IsHostKey(r', k) || IsTimeKey(r', k) {
      if k == HostKey(h) {
        assert h in r'.hosts;
      } else {
        KeyLasts(r, r', k);
      }
    }
  }

  lemma {:induction false} RemoveHostKeeps(ks: Keys, r: Registry, h: Host)
    requires StandsFor(ks, r) && NamedHost(h)
    ensures StandsFor(Apply(ks, RemoveHost(h)), Record(r, RemoveHost(h)))
  {
    var ks', r' := Apply(ks, RemoveHost(h)), Record(r, RemoveHost(h));
    forall g | g in r'.hosts ensures HostKey(g) in ks' && ks'[HostKey(g)] == g.addr {
      HostKeyInjective(g, h);
    }
    forall p | p in r'.times ensures TimeKey(p) in ks' && ks'[TimeKey(p)] == r'.times[p] {
      KindsApart(h, p);
    }
    forall k | k in ks' ensures IsHostKey(r', k) || IsTimeKey(r', k) {
      if IsHostKey(r, k) {
        var g :| g in r.hosts && HostKey(g) == k;
        assert g in r'.hosts;
      } else {
        var p :| p in r.times && TimeKey(p) == k;
        assert p in r'.times;
      }
    }
  }

  lemma {:induction false} UpdateTimeKeeps(ks: Keys, r: Registry, p: ShardName, v: string)
    requires StandsFor(ks, r) && NamedPlace(p)
    ensures StandsFor(Apply(ks, UpdateTime(p, v)), Record(r, UpdateTime(p, v)))
  {
    var ks', r' := Apply(ks, UpdateTime(p, v)), Record(r, UpdateTime(p, v));
    forall h | h in r'.hosts ensures HostKey(h) in ks' && ks'[HostKey(h)] == h.addr {
      KindsApart(h, p);
    }
    forall q | q in r'.times ensures TimeKey(q) in ks' && ks'[TimeKey(q)] == r'.times[q] {
      TimeKeyInjective(p, q);
    }
    forall k | k in ks' ensures IsHostKey(r', k) || IsTimeKey(r', k) {
      if k == TimeKey(p) {
        assert p in r'.times;
      } else {
        KeyLasts(r, r', k);
      }
    }
  }

  lemma {:induction false} UpdateKeeps(ks: Keys, r: Registry, u: Update)
    requires StandsFor(ks, r) && Named(u)
    ensures StandsFor(Apply(ks, u), Record(r, u))
  {
    match u
    case AddHost(h) => AddHostKeeps(ks, r, h);
    case RemoveHost(h) => RemoveHostKeeps(ks, r, h);
    case UpdateTime(p, v) => UpdateTimeKeeps(ks, r, p, v);
  }

  lemma {:induction false} UpdatesKeep(ks: Keys, r: Registry, us: seq<Update>)
    requires StandsFor(ks, r) && forall i :: 0 <= i < |us| ==> Named(us[i])
    ensures StandsFor(ApplyAll(ks, us), RecordAll(r, us))
    decreases |us|
  {
    if us != [] {
      UpdateKeeps(ks, r, us[0]);
      UpdatesKeep(Apply(ks, us[0]), Record(r, us[0]), us[1..]);
    }
  }

  // --------------------------------------------------------------------- listings

  /** The keys a prefix listing returns. */
  ghost function Under(ks: Keys, prefix: string): set<string> {
    set k | k in ks && prefix <= k
  }

  ghost function HostsOf(r: Registry, p: ShardName): set<string> {
    set h | h in r.hosts && h.index == p.index && h.shard == p.shard :: h.addr
  }

  /** The shards an index is known by: those with a host or with a recorded response time. */
  ghost function ShardsOf(r: Registry, index: string): set<string> {
    (set h | h in r.hosts && h.index == index :: h.shard) + (set p | p in r.times && p.index == index :: p.shard)
  }

  lemma {:induction false} UnderShard(h: Host, p: ShardName, index: string, shard: string)
    requires NamedHost(h) && NamedPlace(p) && SlashFree(index) && SlashFree(shard)
    ensures HostsPrefix(index, Some(shard)) <= HostKey(h) <==> h.index == index && h.shard == shard
    ensures !(HostsPrefix(index, Some(shard)) <= TimeKey(p))
  {
    Words();
    KeyPaths(h, p);
    PrefixPaths(index, shard);
    PathPrefix(index, Path("searchers", Path(shard, "hosts")), h.index, Path("searchers", HostTail(h)));
    PathPrefix("searchers", Path(shard, "hosts"), "searchers", HostTail(h));
    PathPrefix(shard, "hosts", h.shard, Path("hosts", h.addr));
    PathPrefix(index, Path("searchers", Path(shard, "hosts")), p.index, Path("searchers", TimeTail(p)));
    PathPrefix("searchers", Path(shard, "hosts"), "searchers", TimeTail(p));
    PathPrefix(shard, "hosts", p.shard, Path("stats", "average_response_time"));
  }

  lemma {:induction false} UnderIndex(h: Host, p: ShardName, index: string)
    requires NamedHost(h) && NamedPlace(p) && SlashFree(index)
    ensures HostsPrefix(index, None) <= HostKey(h) <==> h.index == index
    ensures HostsPrefix(index, None) <= TimeKey(p) <==> p.index == index
  {
    KeyPaths(h, p);
    PrefixPaths(index, "");
    PathPrefix(index, "searchers", h.index, Path("searchers", HostTail(h)));
    PathPrefix(index, "searchers", p.index, Path("searchers", TimeTail(p)));
  }

  lemma {:induction false} UnderTime(h: Host, p: ShardName, q: ShardName)
    requires NamedHost(h) && NamedPlace(p) && NamedPlace(q)
    ensures !(TimeKey(q) <= HostKey(h))
    ensures TimeKey(q) <= TimeKey(p) <==> p == q
  {
    Words();
    KeyPaths(h, p);
    KeyPaths(h, q);
    PathPrefix(q.index, Path("searchers", TimeTail(q)), h.index, Path("searchers", HostTail(h)));
    PathPrefix("searchers", TimeTail(q), "searchers", HostTail(h));
    PathPrefix(q.shard, Path("stats", "average_response_time"), h.shard, Path("hosts", h.addr));
    PathPrefix("stats", "average_response_time", "hosts", h.addr);
    PathPrefix(q.index, Path("searchers", TimeTail(q)), p.index, Path("searchers", TimeTail(p)));
    PathPrefix("searchers", TimeTail(q), "searchers", TimeTail(p));
    PathPrefix(q.shard, Path("stats", "average_response_time"), p.shard, Path("stats", "average_response_time"));
  }

  /** The third part of a key names its shard. */
  lemma {:induction false} ThirdPart(h: Host, p: ShardName)
    requires NamedHost(h) && NamedPlace(p)
    ensures |Split(HostKey(h))| > 2 && Split(HostKey(h))[2] == h.shard
    ensures |Split(TimeKey(p))| > 2 && Split(TimeKey(p))[2] == p.shard
  {
    Words();
    KeyPaths(h, p);
    SplitPath(h.index, Path("searchers", HostTail(h)));
    SplitPath("searchers", HostTail(h));
    SplitPath(h.shard, Path("hosts", h.addr));
    SplitPath(p.index, Path("searchers", TimeTail(p)));
    SplitPath("searchers", TimeTail(p));
    SplitPath(p.shard, Path("stats", "average_response_time"));
  }

  // ------------------------------------------------- listings against the registry

  ghost predicate HoldsNow(us: seq<Update>, ks: Keys, r: Registry) {
    && (forall i :: 0 <= i < |us| ==> Named(us[i]))
    && ks == ApplyAll(map[], us)
    && r == RecordAll(Registry({}, map[]), us)
  }

  /** Each key below a shard's hosts is one host of the shard, and each host of the shard is one such key. */
  lemma {:induction false} ShardListing(ks: Keys, r: Registry, index: string, shard: string)
    requires StandsFor(ks, r) && SlashFree(index) && SlashFree(shard)
    ensures Under(ks, HostsPrefix(index, Some(shard))) == set h | h in r.hosts && h.index == index &&
      h.shard == shard :: HostKey(h)
  {
    var keys := Under(ks, HostsPrefix(index, Some(shard)));
    forall k | k in keys ensures exists h :: h in r.hosts && h.index == index && h.shard == shard && HostKey(h) == k {
      if IsHostKey(r, k) {
        var h :| h in r.hosts && HostKey(h) == k;
        UnderShard(h, ShardName("", ""), index, shard);
      } else {
        var p :| p in r.times && TimeKey(p) == k;
        UnderShard(Host("", "", ""), p, index, shard);
      }
    }
    forall h | h in r.hosts && h.index == index && h.shard == shard ensures HostKey(h) in keys {
      UnderShard(h, ShardName("", ""), index, shard);
    }
  }

  /** The keys below an index are the host keys and the time keys of the index. */
  lemma {:induction false} IndexListing(ks: Keys, r: Registry, index: string)
    requires StandsFor(ks, r) && SlashFree(index)
    ensures Under(ks, HostsPrefix(index, None)) ==
      (set h | h in r.hosts && h.index == index :: HostKey(h)) +
      (set p | p in r.times && p.index == index :: TimeKey(p))
  {
    var keys := Under(ks, HostsPrefix(index, None));
    forall k | k in keys
      ensures (exists h :: h in r.hosts && h.index == index && HostKey(h) == k)
           || (exists p :: p in r.times && p.index == index && TimeKey(p) == k)
    {
      if IsHostKey(r, k) {
        var h :| h in r.hosts && HostKey(h) == k;
        UnderIndex(h, ShardName("", ""), index);
      } else {
        var p :| p in r.times && TimeKey(p) == k;
        UnderIndex(Host("", "", ""), p, index);
      }
    }
    forall h | h in r.hosts && h.index == index ensures HostKey(h) in keys {
      UnderIndex(h, ShardName("", ""), index);
    }
    forall p | p in r.times && p.index == index ensures TimeKey(p) in keys {
      UnderIndex(Host("", "", ""), p, index);
    }
  }

  /** The key of a response time is alone below itself. */
  lemma {:induction false} TimeListing(ks: Keys, r: Registry, q: ShardName)
    requires StandsFor(ks, r) && NamedPlace(q)
    ensures Under(ks, TimeKey(q)) == if q in r.times then {TimeKey(q)} else {}
  {
    forall k | k in Under(ks, TimeKey(q)) ensures q in r.times && k == TimeKey(q) {
      if IsHostKey(r, k) {
        var h :| h in r.hosts && HostKey(h) == k;
        UnderTime(h, q, q);
      } else {
        var p :| p in r.times && TimeKey(p) == k;
        UnderTime(Host("", "", ""), p, q);
      }
    }
  }

  /** Every key below an index has a third part, and the third parts are the index's shards. */
  lemma {:induction false} ShardNames(ks: Keys, r: Registry, index: string)
    requires StandsFor(ks, r) && SlashFree(index)
    ensures forall k :: k in Under(ks, HostsPrefix(index, None)) ==> |Split(k)| > 2
    ensures (set k | k in Under(ks, HostsPrefix(index, None)) :: Split(k)[2]) == ShardsOf(r, index)
  {
    IndexListing(ks, r, index);
    var keys := Under(ks, HostsPrefix(index, None));
    forall k | k in keys ensures |Split(k)| > 2 && Split(k)[2] in ShardsOf(r, index) {
      if h :| h in r.hosts && h.index == index && HostKey(h) == k {
        ThirdPart(h, ShardName("", ""));
      } else {
        var p :| p in r.times && p.index == index && TimeKey(p) == k;
        ThirdPart(Host("", "", ""), p);
      }
    }
    forall x | x in ShardsOf(r, index) ensures exists k :: k in keys && Split(k)[2] == x {
      if h :| h in r.hosts && h.index == index && h.shard == x {
        ThirdPart(h, ShardName("", ""));
        assert HostKey(h) in keys;
      } else {
        var p :| p in r.times && p.index == index && p.shard == x;
        ThirdPart(Host("", "", ""), p);
        assert TimeKey(p) in keys;
      }
    }
  }

  /** After any updates the listings of the flat keyspace tell exactly what the registry holds. */
  lemma {:induction false} ListingsMatchTheRegistry(us: seq<Update>, ks: Keys, r: Registry, index: string,
      shard: string)
    requires HoldsNow(us, ks, r) && SlashFree(index) && SlashFree(shard)
    ensures (set k | k in Under(ks, HostsPrefix(index, Some(shard))) :: ks[k]) == HostsOf(r, ShardName(index, shard))
    ensures forall k :: k in Under(ks, HostsPrefix(index, None)) ==> |Split(k)| > 2
    ensures (set k | k in Under(ks, HostsPrefix(index, None)) :: Split(k)[2]) == ShardsOf(r, index)
    ensures Under(ks, TimeKey(ShardName(index, shard))) ==
      if ShardName(index, shard) in r.times then {TimeKey(ShardName(index, shard))} else {}
    ensures ShardName(index, shard) in r.times ==>
      ks[TimeKey(ShardName(index, shard))] == r.times[ShardName(index, shard)]
  {
    UpdatesKeep(map[], Registry({}, map[]), us);
    ShardListing(ks, r, index, shard);
    ShardNames(ks, r, index);
    TimeListing(ks, r, ShardName(index, shard));
    HostValues(ks, r, index, shard);
  }

  lemma {:induction false} HostValues(ks: Keys, r: Registry, index: string, shard: string)
    requires StandsFor(ks, r) && SlashFree(index) && SlashFree(shard)
    ensures (set k | k in Under(ks, HostsPrefix(index, Some(shard))) :: ks[k]) == HostsOf(r, ShardName(index, shard))
  {
    ShardListing(ks, r, index, shard);
    var keys := Under(ks, HostsPrefix(index, Some(shard)));
    forall x | x in HostsOf(r, ShardName(index, shard)) ensures exists k :: k in keys && ks[k] == x {
      var h :| h in r.hosts && h.index == index && h.shard == shard && h.addr == x;
      assert HostKey(h) in keys;
    }
  }

  /** A shard with a slash in its name is listed under another name: the part before the slash. */
  lemma {:induction false} SlashFreeIff(h: Host)
    requires SlashFree(h.index)
    ensures |Split(HostKey(h))| > 2
    ensures Split(HostKey(h))[2] == h.shard <==> SlashFree(h.shard)
  {
    Words();
    KeyPaths(h, ShardName("", ""));
    SplitPath(h.index, Path("searchers", HostTail(h)));
    SplitPath("searchers", HostTail(h));
    var tail := Path(h.shard, Path("hosts", h.addr));
    assert Split(HostKey(h))[2] == Split(tail)[0];
    JoinSplit(tail);
    if SlashFree(h.shard) {
      SplitPath(h.shard, Path("hosts", h.addr));
    }
  }

  lemma {:induction false} TimesStay(r: Registry, us: seq<Update>)
    ensures r.times.Keys <= RecordAll(r, us).times.Keys
    decreases |us|
  {
    if us != [] {
      TimesStay(Record(r, us[0]), us[1..]);
    }
  }

  /** Once a response time was recorded for a shard it stays listed, whatever hosts are removed later. */
  lemma {:induction false} TimedShardStaysListed(r: Registry, us: seq<Update>, i: nat)
    requires i < |us| && us[i].UpdateTime?
    ensures us[i].place.shard in ShardsOf(RecordAll(r, us), us[i].place.index)
    decreases |us|
  {
    if i == 0 {
      TimesStay(Record(r, us[0]), us[1..]);
      assert us[0].place in RecordAll(r, us).times;
    } else {
      TimedShardStaysListed(Record(r, us[0]), us[1..], i - 1);
    }
  }
}
