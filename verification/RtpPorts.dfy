/** RTP ports: how a port range is split among media engines (libs/mpf/src/mpf_rtp_termination_factory.c) and how an
    engine searches its part for a free pair of ports (libs/mpf/src/mpf_rtp_stream.c). */
module RtpPorts {
  import opened Common

  /** Ports min, ..., max - 1; the next search starts at cur. */
  datatype Config = Config(min: u16, max: u16, cur: u16)

  predicate Owns(c: Config, port: int) {
    c.min <= port < c.max
  }

  /** An even number of ports for each of n engines. */
  function Share(min: u16, max: u16, n: nat): nat
    requires min <= max && n > 0
  {
    var ports := (max - min) / n;
    if ports % 2 != 0 then ports - 1 else ports
  }

  lemma ShareFits(min: u16, max: u16, n: nat, i: nat)
    requires min <= max && 0 < n && i <= n
    ensures min + i * Share(min, max, n) <= max
    ensures Share(min, max, n) > 0 <==> max - min >= 2 * n
    ensures Share(min, max, n) % 2 == 0
  {
    var share, ports := Share(min, max, n), (max - min) / n;
    assert ports * n <= max - min < ports * n + n by {
      DivBounds(max - min, n);
    }
    MulMonotone(i, n, share);
    MulMonotone(share, ports, n);
    if ports >= 2 {
      MulMonotone(2, ports, n);
    } else {
      MulMonotone(ports, 1, n);
    }
  }

  lemma ShareIsLargest(min: u16, max: u16, n: nat)
    requires min <= max && 0 < n
    ensures (Share(min, max, n) + 2) * n > max - min
  {
    var ports := (max - min) / n;
    DivBounds(max - min, n);
    MulMonotone(ports + 1, Share(min, max, n) + 2, n);
    assert (ports + 1) * n == ports * n + n;
  }

  lemma DivBounds(a: nat, n: nat)
    requires n > 0
    ensures a / n * n <= a < a / n * n + n
  {
  }

  /** The part of engine i of n: parts are consecutive, and the last one extends to the end of the range. */
  function Part(min: u16, max: u16, n: nat, i: nat): Config
    requires min <= max && i < n
  {
    ShareFits(min, max, n, i);
    ShareFits(min, max, n, i + 1);
    assert i * Share(min, max, n) >= 0 && (i + 1) * Share(min, max, n) >= 0;
    var from := min + i * Share(min, max, n);
    Config(from, if i == n - 1 then max else min + (i + 1) * Share(min, max, n), from)
  }

  /** Every engine has its part; where it has come to in it is not told. */
  predicate Split(configs: seq<Config>, min: u16, max: u16)
    requires min <= max
  {
    forall i :: 0 <= i < |configs| ==> configs[i] == Part(min, max, |configs|, i).(cur := configs[i].cur)
  }

  /** No port belongs to two engines, ... */
  lemma PartsDisjoint(min: u16, max: u16, n: nat, i: nat, j: nat, port: int)
    requires min <= max && i < j < n
    ensures Part(min, max, n, i).max <= Part(min, max, n, j).min
    ensures !(Owns(Part(min, max, n, i), port) && Owns(Part(min, max, n, j), port))
  {
    MulMonotone(i + 1, j, Share(min, max, n));
  }

  /** ... every port of the range belongs to one, ... */
  lemma {:induction false} PartsCover(min: u16, max: u16, n: nat, k: nat, port: int) returns (i: nat)
    requires min <= max && k < n && min <= port && (if k == n - 1 then port < max else port < Part(min, max, n, k).max)
    ensures i <= k && Owns(Part(min, max, n, i), port)
    decreases k
  {
    if k > 0 && port < Part(min, max, n, k).min {
      i := PartsCover(min, max, n, k - 1, port);
    } else {
      i := k;
    }
  }

  /** ... all sizes but the last are even, as large as they can be, and no part is empty exactly when there are two ports
      for each engine. */
  lemma PartSizes(min: u16, max: u16, n: nat, i: nat)
    requires min <= max && i < n
    ensures i < n - 1 ==> (Part(min, max, n, i).max - Part(min, max, n, i).min) % 2 == 0
    ensures max - min >= 2 * n ==> Part(min, max, n, i).max - Part(min, max, n, i).min >= 2
    ensures max - min < 2 * n && i < n - 1 ==> Part(min, max, n, i).max == Part(min, max, n, i).min
    ensures i < n - 1 ==> (Part(min, max, n, i).max - Part(min, max, n, i).min + 2) * n > max - min
  {
    var share := Share(min, max, n);
    ShareIsLargest(min, max, n);
    ShareFits(min, max, n, n);
    assert (i + 1) * share == i * share + share;
    assert share > 0 ==> share >= 2;
  }

  class Factory {
    const min: u16
    const max: u16
    var engines: seq<nat>
    var configs: seq<Config>

    ghost predicate Valid()
      reads this
    {
      && min <= max && |engines| == |configs| && Split(configs, min, max)
      && forall i, j :: 0 <= i < j < |engines| ==> engines[i] != engines[j]
    }

    constructor (min: u16, max: u16)
      requires min <= max
      ensures Valid() && this.min == min && this.max == max && engines == []
    {
      this.min, this.max, engines, configs := min, max, [], [];
    }

    /** Assigns one more engine and splits the range anew; an engine that is known already changes nothing.  All but the
        first start their part anew: the first goes on where it was, which is in its part exactly if it was below the
        new end. */
    method Assign(engine: nat)
      requires Valid()
      modifies this
      ensures Valid() && engines == if engine in old(engines) then old(engines) else old(engines) + [engine]
      ensures engine in old(engines) ==> configs == old(configs)
      ensures engine !in old(engines) ==> forall i :: 0 < i < |configs| ==> configs[i].cur == configs[i].min
      ensures engine !in old(engines) && old(configs) == [] ==> configs == [Config(min, max, min)]
      ensures engine !in old(engines) && old(configs) != [] ==>
                && configs[0].cur == old(configs)[0].cur
                && (Owns(configs[0], configs[0].cur) <==> min <= configs[0].cur < min + Share(min, max, |engines|))
    {
      for i := 0 to |engines|
        invariant engine !in engines[..i] && Valid() && engines == old(engines) && configs == old(configs)
      {
        if engines[i] == engine {
          return;
        }
      }
      engines := engines + [engine];
      configs := configs + [Config(min, max, min)];
      if |engines| > 1 {
        Resplit();
      }
    }

    /** Rewrites the bounds of the parts, in order. */
    method Resplit()
      requires min <= max && |configs| == |engines| > 1
      requires configs[0].min == min && configs[|configs| - 1].max == max
      modifies this`configs
      ensures |configs| == |engines| && Split(configs, min, max) && configs[0].cur == old(configs)[0].cur
      ensures forall i :: 0 < i < |configs| ==> configs[i].cur == configs[i].min
    {
      var n := |engines|;
      var share := (max - min) / n;
      if share % 2 != 0 {
        share := share - 1;
      }
      FirstPart(min, max, n);
      configs := configs[0 := configs[0].(max := min + share)];
      for i := 1 to n - 1
        invariant |configs| == n && configs[n - 1].max == max && configs[0] == Part(min, max, n, 0).(cur := old(configs)[0].cur)
        invariant forall k :: 0 < k < i ==> configs[k] == Part(min, max, n, k)
      {
        NextPart(min, max, n, i);
        var from := configs[i - 1].max;
        configs := configs[i := Config(from, from + share, from)];
      }
      NextPart(min, max, n, n - 1);
      var from := configs[n - 2].max;
      configs := configs[n - 1 := configs[n - 1].(min := from, cur := from)];
    }
  }

  lemma FirstPart(min: u16, max: u16, n: nat)
    requires min <= max && n > 1
    ensures Part(min, max, n, 0) == Config(min, min + Share(min, max, n), min)
  {
  }

  /** A part starts where the one before it ends. */
  lemma NextPart(min: u16, max: u16, n: nat, i: nat)
    requires min <= max && 0 < i < n
    ensures var from, share := Part(min, max, n, i - 1).max, Share(min, max, n);
            Part(min, max, n, i) == Config(from, if i == n - 1 then max else from + share, from)
  {
    var share := Share(min, max, n);
    ShareFits(min, max, n, i);
    ShareFits(min, max, n, i + 1);
    assert (i + 1) * share == i * share + share;
  }

  // ----- searching -----

  /** A port at which a pair of an RTP port and an RTCP port starts. */
  predicate IsPair(c: Config, port: int) {
    Owns(c, port) && (port - c.min) % 2 == 0
  }

  /** Where the search goes on, in 16 bits. */
  function Next(c: Config): u16 {
    var next := U16(c.cur + 2);
    if next >= c.max then c.min else next
  }

  /** A search keeps to the ports of its engine exactly when this holds. */
  predicate Confined(c: Config) {
    c.max < 0xFFFF || c.min % 2 == 1 || c.min == 0
  }

  lemma SearchIsConfinedExactly(c: Config)
    requires c.min < c.max
    ensures (forall cur: u16 :: IsPair(c, cur) ==> IsPair(c, Next(c.(cur := cur)))) <==> Confined(c)
  {
    if Confined(c) {
      forall cur: u16 | IsPair(c, cur)
        ensures IsPair(c, Next(c.(cur := cur)))
      {
        var d := c.(cur := cur);
        SamePairs(c, d, cur);
        NextPair(d);
        SamePairs(c, d, Next(d));
      }
    } else {
      assert IsPair(c, 0xFFFE) && Next(c.(cur := 0xFFFE)) == 0;
    }
  }

  /** The k-th port that is tried from cur on. */
  function Tried(c: Config, k: nat): u16
    decreases k
  {
    if k == 0 then c.cur else Tried(c.(cur := Next(c)), k - 1)
  }

  lemma {:induction false} TriedNext(c: Config, k: nat)
    ensures Tried(c, k + 1) == Next(c.(cur := Tried(c, k)))
    decreases k
  {
    if k > 0 {
      var d := c.(cur := Next(c));
      TriedNext(d, k - 1);
      assert d.(cur := Tried(d, k - 1)) == c.(cur := Tried(c, k));
    } else {
      assert c.(cur := Tried(c, 0)) == c;
    }
  }

  lemma SamePairs(c: Config, d: Config, port: int)
    requires c.min == d.min && c.max == d.max
    ensures IsPair(c, port) == IsPair(d, port)
  {
  }

  lemma {:induction false} StaysConfined(c: Config, k: nat)
    requires c.min < c.max && IsPair(c, c.cur) && Confined(c)
    ensures IsPair(c, Tried(c, k))
    decreases k
  {
    if k > 0 {
      var d := c.(cur := Next(c));
      NextPair(c);
      StaysConfined(d, k - 1);
      SamePairs(c, d, Tried(d, k - 1));
    }
  }

  /** A search that starts behind its part goes through the part and never comes back to its start, so it ends only
      if a port can be bound. */
  lemma StaleSearchNeverReturns(c: Config, k: nat)
    requires c.min < c.max <= c.cur < 0xFFFE && Confined(c) && k > 0
    ensures IsPair(c, Tried(c, k)) && Tried(c, k) != c.cur
  {
    StaysConfined(c.(cur := c.min), k - 1);
  }

  class PortSearch {
    var config: Config

    constructor (config: Config)
      ensures this.config == config
    {
      this.config := config;
    }

    /** Tries pairs of ports from cur on, in order, until one can be bound, and leaves off behind the last one tried.
        Every pair is tried at most once, and all of them if none can be bound. */
    method FindPort(bindable: nat -> bool) returns (ok: bool, port: u16, tried: seq<u16>)
      requires Owns(config, config.cur) && IsPair(config, config.cur) && Confined(config)
      modifies this
      ensures config == old(config).(cur := config.cur) && IsPair(config, config.cur)
      ensures forall i, j :: 0 <= i < j < |tried| ==> tried[i] != tried[j]
      ensures forall q :: q in tried ==> IsPair(config, q)
      ensures |tried| > 0 && config.cur == Tried(old(config), |tried|)
      ensures forall i :: 0 <= i < |tried| ==> tried[i] == Tried(old(config), i)
      ensures forall i :: 0 <= i < |tried| - 1 ==> !bindable(tried[i])
      ensures ok ==> bindable(port) && port == tried[|tried| - 1]
      ensures !ok ==> forall q: u16 :: IsPair(config, q) ==> !bindable(q)
    {
      var first := config.cur;
      ok, port, tried := false, first, [];
      ghost var wrapped := false;
      var again := true;
      while again
        invariant config == old(config).(cur := config.cur) && IsPair(config, config.cur)
        invariant Searched(config, first, wrapped, tried)
        invariant config.cur == Tried(old(config), |tried|) && (!again ==> |tried| > 0)
        invariant forall i :: 0 <= i < |tried| ==> tried[i] == Tried(old(config), i)
        invariant forall i :: 0 <= i < |tried| - 1 ==> !bindable(tried[i])
        invariant ok ==> !again && bindable(port) && tried != [] && port == tried[|tried| - 1]
        invariant !ok ==> (forall q :: q in tried ==> !bindable(q)) && (again <==> !wrapped || config.cur < first)
        decreases if wrapped then first - config.cur else 0x2_0000 - config.cur, again
      {
        port := config.cur;
        NextPair(config);
        SearchedNext(config, first, wrapped, tried);
        TriedNext(old(config), |tried|);
        Move();
        wrapped := wrapped || config.cur <= port;
        tried := tried + [port];
        if bindable(port) {
          ok, again := true, false;
        } else {
          again := first != config.cur;
        }
      }
    }

    method Move()
      modifies this
      ensures config == old(config).(cur := Next(old(config)))
    {
      config := config.(cur := U16(config.cur + 2));
      if config.cur >= config.max {
        config := config.(cur := config.min);
      }
    }
  }

  /** The search moves to the next pair, or from the last pair to the first. */
  lemma NextPair(c: Config)
    requires IsPair(c, c.cur) && Confined(c)
    ensures IsPair(c, Next(c))
    ensures Next(c) > c.cur ==> Next(c) == c.cur + 2
    ensures Next(c) <= c.cur ==> Next(c) == c.min && c.cur + 2 >= c.max
    ensures forall q: u16 :: IsPair(c, q) ==> q <= c.cur || q >= c.cur + 2
  {
  }

  /** Ports visited by a search from `first` that has come to `cur`. */
  predicate Visited(first: int, cur: int, wrapped: bool, q: int) {
    if wrapped then q >= first || q < cur else first <= q < cur
  }

  /** A search from `first` has tried the pairs it has visited, each once. */
  ghost predicate Searched(c: Config, first: u16, wrapped: bool, tried: seq<u16>) {
    && IsPair(c, first) && (if wrapped then c.cur <= first else c.cur >= first)
    && (forall q: u16 :: q in tried <==> IsPair(c, q) && Visited(first, c.cur, wrapped, q))
    && (forall i, j :: 0 <= i < j < |tried| ==> tried[i] != tried[j])
  }

  lemma SearchedNext(c: Config, first: u16, wrapped: bool, tried: seq<u16>)
    requires IsPair(c, c.cur) && Confined(c) && Searched(c, first, wrapped, tried) && (wrapped ==> c.cur < first)
    ensures var d := c.(cur := Next(c)); Searched(d, first, wrapped || d.cur <= c.cur, tried + [c.cur])
  {
    NextPair(c);
    var d := c.(cur := Next(c));
    forall q: u16
      ensures q in tried + [c.cur] <==> IsPair(d, q) && Visited(first, d.cur, wrapped || d.cur <= c.cur, q)
    {
      SamePairs(c, d, q);
    }
  }

  /** Neither the RTP port nor the RTCP port that an engine tries belongs to another engine. */
  lemma PairsAreOwn(min: u16, max: u16, n: nat, i: nat, j: nat, port: int)
    requires min <= max && i < n && j < n && i != j && IsPair(Part(min, max, n, i), port)
    ensures !Owns(Part(min, max, n, j), port) && !Owns(Part(min, max, n, j), port + 1)
  {
    PartSizes(min, max, n, i);
    if i < j {
      PartsDisjoint(min, max, n, i, j, port);
    } else {
      PartsDisjoint(min, max, n, j, i, port);
    }
  }
}
