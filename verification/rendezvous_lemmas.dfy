/** Properties of the rank assignment and of the registration message. */
module RendezvousLemmas {
  import opened Wrappers
  import opened Seqs
  import opened Decimal
  import opened Rendezvous

  /** Feeding two runs of keys one after the other is feeding their
      concatenation: the loop state is all that carries over. */
  lemma {:induction false} VisitAllAppend(p: Peers, a: seq<string>, b: seq<string>)
    requires Valid(p)
    ensures VisitAll(p, a + b) == VisitAll(VisitAll(p, a), b)
    decreases |b|
  {
    if |b| == 0 {
      assert a + b == a;
    } else {
      assert (a + b)[..|a + b| - 1] == a + b[..|b| - 1];
      VisitAllAppend(p, a, b[..|b| - 1]);
    }
  }

  lemma AllKeysSnoc(s: seq<Option<Reply>>, last: Option<Reply>)
    ensures AllKeys(s + [last]) == AllKeys(s) + KeysOf(last)
  {
    var t := s + [last];
    assert t[..|t| - 1] == s;
  }

  lemma {:induction false} AllKeysAppend(a: seq<Option<Reply>>, b: seq<Option<Reply>>)
    ensures AllKeys(a + b) == AllKeys(a) + AllKeys(b)
    decreases |b|
  {
    if |b| == 0 {
      assert a + b == a;
    } else {
      var b0, last := b[..|b| - 1], b[|b| - 1];
      assert b == b0 + [last];
      assert a + b == (a + b0) + [last];
      AllKeysAppend(a, b0);
      AllKeysSnoc(a + b0, last);
      AllKeysSnoc(b0, last);
      ConcatAssoc(AllKeys(a), AllKeys(b0), KeysOf(last));
    }
  }

  /** Walking the replies is the same as feeding every key of every parsed
      reply, in order, to one loop state that starts empty. */
  lemma {:induction false} RankingIsVisitAll(replies: seq<Option<Reply>>)
    ensures Ranking(replies) == VisitAll(NoPeers, AllKeys(replies))
    decreases |replies|
  {
    if |replies| > 0 {
      var init := replies[..|replies| - 1];
      RankingIsVisitAll(init);
      VisitAllAppend(NoPeers, AllKeys(init), KeysOf(replies[|replies| - 1]));
    }
  }

  /** The counter and the seen-set persist across replies: the replies after a
      prefix continue from the prefix's state, so the ranks handed out for the
      prefix are kept and later replies only append. */
  lemma CounterPersists(a: seq<Option<Reply>>, b: seq<Option<Reply>>)
    ensures Ranking(a + b) == VisitAll(Ranking(a), AllKeys(b))
    ensures Ranking(a).endpoint <= Ranking(a + b).endpoint
    ensures Ranking(a).rank <= Ranking(a + b).rank
  {
    RankingIsVisitAll(a + b);
    RankingIsVisitAll(a);
    AllKeysAppend(a, b);
    VisitAllAppend(NoPeers, AllKeys(a), AllKeys(b));
    var later := VisitAll(Ranking(a), AllKeys(b));
    assert Ranking(a + b) == later;
  }

  /** A reply that fails to parse contributes nothing and does not advance
      the counter, wherever it sits among the replies. */
  lemma FailedReplySkipped(a: seq<Option<Reply>>, b: seq<Option<Reply>>)
    ensures Ranking(a + [None] + b) == Ranking(a + b)
  {
    var an := a + [None];
    assert an[..|an| - 1] == a;
    assert AllKeys(an) == AllKeys(a);
    AllKeysAppend(an, b);
    AllKeysAppend(a, b);
    assert AllKeys(an + b) == AllKeys(a + b);
    RankingIsVisitAll(an + b);
    RankingIsVisitAll(a + b);
  }

  /** Every key of every parsed reply is assigned exactly one rank, and no
      other string is. */
  lemma RankedExactlyOnce(replies: seq<Option<Reply>>, key: string)
    ensures multiset(Ranking(replies).endpoint)[key] == (if key in AllKeys(replies) then 1 else 0)
  {
    RankingMembers(replies);
    DistinctOccursOnce(Ranking(replies).endpoint, key);
  }

  /** The number of filled slots is the number of distinct keys. */
  lemma CountIsDistinctKeys(replies: seq<Option<Reply>>)
    ensures |Ranking(replies).endpoint| == |Elems(AllKeys(replies))|
  {
    var e := Ranking(replies).endpoint;
    RankingMembers(replies);
    DistinctCardinality(e);
    assert Elems(e) == Elems(AllKeys(replies));
  }

  /** The first occurrence of an element of a prefix does not move when the
      sequence grows at the end. */
  lemma FirstIndexExtend<T>(s: seq<T>, x: T, y: T)
    requires y in s
    ensures FirstIndex(s + [x], y) == FirstIndex(s, y)
  {
    var b := FirstIndex(s, y);
    assert (s + [x])[b] == y;
  }

  /** Every element of `e` occurs in `keys`, and earlier elements of `e`
      occur earlier in `keys`. */
  ghost predicate FirstSeenOrdered(keys: seq<string>, e: seq<string>) {
    && (forall i :: 0 <= i < |e| ==> e[i] in keys)
    && (forall i, j :: 0 <= i < j < |e| ==> FirstIndex(keys, e[i]) < FirstIndex(keys, e[j]))
  }

  /** One more key keeps the order, whether it is a repeat or a newcomer. */
  lemma OrderStep(init: seq<string>, x: string, keys: seq<string>, e0: seq<string>)
    requires keys == init + [x]
    requires FirstSeenOrdered(init, e0)
    ensures FirstSeenOrdered(keys, e0)
    ensures x !in init ==> FirstSeenOrdered(keys, e0 + [x])
  {
    forall y | y in init
      ensures FirstIndex(keys, y) == FirstIndex(init, y) < |init|
    {
      FirstIndexExtend(init, x, y);
    }
    if x !in init {
      assert FirstIndex(keys, x) == |init|;
      var e := e0 + [x];
      forall i, j | 0 <= i < j < |e|
        ensures FirstIndex(keys, e[i]) < FirstIndex(keys, e[j])
      {
        assert e[i] == e0[i];
        if j < |e0| {
          assert e[j] == e0[j];
        }
      }
    }
  }

  /** Endpoints are ranked in the order their keys are first seen. */
  lemma {:induction false} FirstSeenOrderKeys(keys: seq<string>)
    ensures FirstSeenOrdered(keys, VisitAll(NoPeers, keys).endpoint)
    decreases |keys|
  {
    if |keys| > 0 {
      var init := keys[..|keys| - 1];
      var x := keys[|keys| - 1];
      assert keys == init + [x];
      var p := VisitAll(NoPeers, init);
      assert x in p.seen <==> x in init by {
        VisitAllMembers(NoPeers, init);
        assert x in p.seen <==> x in p.endpoint;
      }
      FirstSeenOrderKeys(init);
      OrderStep(init, x, keys, p.endpoint);
    }
  }

  /** For the replies as a whole: every endpoint is a key, and rank i comes
      before rank j exactly because the i-th endpoint's key occurs first
      across the replies in order. */
  lemma RankingFirstSeenOrder(replies: seq<Option<Reply>>)
    ensures FirstSeenOrdered(AllKeys(replies), Ranking(replies).endpoint)
  {
    RankingIsVisitAll(replies);
    FirstSeenOrderKeys(AllKeys(replies));
  }

  /** An independent description of the output: keep each key whose value
      does not occur earlier in the sequence. */
  function FirstOccurrences(keys: seq<string>): seq<string> {
    if |keys| == 0 then []
    else
      var init := keys[..|keys| - 1];
      FirstOccurrences(init) + (if keys[|keys| - 1] in init then [] else [keys[|keys| - 1]])
  }

  lemma {:induction false} VisitAllFirstOccurrences(keys: seq<string>)
    ensures VisitAll(NoPeers, keys).endpoint == FirstOccurrences(keys)
    decreases |keys|
  {
    if |keys| > 0 {
      VisitAllFirstOccurrences(keys[..|keys| - 1]);
      VisitAllMembers(NoPeers, keys[..|keys| - 1]);
    }
  }

  /** The endpoint array is the keys of the parsed replies with every repeat
      dropped, in the order of first appearance. */
  lemma RankingIsFirstOccurrences(replies: seq<Option<Reply>>)
    ensures Ranking(replies).endpoint == FirstOccurrences(AllKeys(replies))
  {
    RankingIsVisitAll(replies);
    VisitAllFirstOccurrences(AllKeys(replies));
  }

  /** The last colon of `ip:d` is the separator when `d` holds no colon. */
  lemma LastColon(ip: string, d: string)
    requires ':' !in d
    ensures LastIndexOf(ip + [':'] + d, ':') == Some(|ip|)
  {
    var s := ip + [':'] + d;
    assert s[|ip|] == ':';
    assert LastIndexOf(s, ':').Some?;
  }

  /** A key is never the key of two different endpoints: the port text holds
      no colon, so the last colon separates IP from port. Deduplicating by the
      string is deduplicating by the (ip, port) pair. */
  lemma EndpointKeyInjective(ip1: string, port1: int, ip2: string, port2: int)
    ensures EndpointKey(ip1, port1) == EndpointKey(ip2, port2) <==> ip1 == ip2 && port1 == port2
  {
    if EndpointKey(ip1, port1) == EndpointKey(ip2, port2) {
      var k := EndpointKey(ip1, port1);
      assert k == ip1 + [':'] + IntString(port1);
      assert k == ip2 + [':'] + IntString(port2);
      LastColon(ip1, IntString(port1));
      LastColon(ip2, IntString(port2));
      assert ip1 == k[..|ip1|] == ip2;
      assert IntString(port1) == k[|ip1| + 1..] == IntString(port2);
      IntStringInjective(port1, port2);
    }
  }

  /** The port of the examples renders as `9000`. */
  lemma Port9000Text()
    ensures IntString(9000) == "9000"
  {
    assert NatString(9) == "9";
    assert NatString(90) == "90";
    assert NatString(900) == "900";
    assert NatString(9000) == "9000";
  }

  lemma ExampleKeys()
    ensures ReplyKeys(Reply(["10.0.0.1", "10.0.0.2", "10.0.0.1"], [9000, 9000, 9000]))
         == ["10.0.0.1:9000", "10.0.0.2:9000", "10.0.0.1:9000"]
  {
    Port9000Text();
    var r := Reply(["10.0.0.1", "10.0.0.2", "10.0.0.1"], [9000, 9000, 9000]);
    assert PortAt(r, 0) == 9000 && PortAt(r, 1) == 9000 && PortAt(r, 2) == 9000;
    assert EndpointKey("10.0.0.1", 9000) == "10.0.0.1:9000";
    assert EndpointKey("10.0.0.2", 9000) == "10.0.0.2:9000";
    var keys := ReplyKeys(r);
    assert |keys| == 3;
    assert keys[0] == "10.0.0.1:9000" && keys[1] == "10.0.0.2:9000" && keys[2] == "10.0.0.1:9000";
  }

  /** The text after the IP's colon in a key reads back as the port. */
  lemma KeyReadsBack(ip: string, port: int)
    ensures var k := EndpointKey(ip, port); |k| > |ip| && ParseInt(k[|ip| + 1..]) == Some(port)
  {
    var k := EndpointKey(ip, port);
    assert k[|ip| + 1..] == IntString(port);
    IntStringRoundTrip(port);
  }

  /** Key j of a reply is IP j, a colon, and the port read at position j:
      the IP is a prefix of the key and the text after the colon reads back
      as that port. */
  lemma ReplyKeyReads(r: Reply, j: nat)
    requires j < |r.clientIps|
    ensures var ip, k := r.clientIps[j], ReplyKeys(r)[j];
      |k| > |ip| && k[..|ip|] == ip && k[|ip|] == ':' && ParseInt(k[|ip| + 1..]) == Some(PortAt(r, j))
  {
    assert ReplyKeys(r)[j] == EndpointKey(r.clientIps[j], PortAt(r, j));
    KeyReadsBack(r.clientIps[j], PortAt(r, j));
  }

  /** Ports are read by position: padding a short ports array with zeros up
      to the length of the IPs gives the same keys, since a missing port
      reads as 0, and ports beyond the length of the IPs are never read. */
  lemma PortsPadding(ips: seq<string>, ports: seq<int>, extra: seq<int>)
    ensures |ports| <= |ips| ==>
      ReplyKeys(Reply(ips, ports + seq(|ips| - |ports|, _ => 0))) == ReplyKeys(Reply(ips, ports))
    ensures |ports| >= |ips| ==>
      ReplyKeys(Reply(ips, ports + extra)) == ReplyKeys(Reply(ips, ports))
  {
    var r := Reply(ips, ports);
    if |ports| <= |ips| {
      var padded := Reply(ips, ports + seq(|ips| - |ports|, _ => 0));
      forall j | 0 <= j < |ips|
        ensures ReplyKeys(padded)[j] == ReplyKeys(r)[j]
      {
        assert PortAt(padded, j) == PortAt(r, j);
      }
    }
    if |ports| >= |ips| {
      var longer := Reply(ips, ports + extra);
      forall j | 0 <= j < |ips|
        ensures ReplyKeys(longer)[j] == ReplyKeys(r)[j]
      {
        assert PortAt(longer, j) == PortAt(r, j);
      }
    }
  }

  lemma VisitAllSnoc(p: Peers, keys: seq<string>, k: string)
    requires Valid(p)
    ensures VisitAll(p, keys + [k]) == Visit(VisitAll(p, keys), k)
  {
    var t := keys + [k];
    assert t[..|t| - 1] == keys;
  }

  lemma SnocLiterals<T>(x: T, y: T)
    ensures [] + [x] == [x] && [x] + [y] == [x, y] && [x, y] + [x] == [x, y, x]
  {
  }

  lemma ExampleVisits(k1: string, k2: string)
    requires k1 != k2
    ensures VisitAll(NoPeers, [k1, k2, k1]).endpoint == [k1, k2]
    ensures VisitAll(NoPeers, [k1, k2, k1]).rank == [0, 1]
  {
    SnocLiterals(k1, k2);
    SnocLiterals(0, 1);
    VisitAllSnoc(NoPeers, [], k1);
    VisitAllSnoc(NoPeers, [k1], k2);
    VisitAllSnoc(NoPeers, [k1, k2], k1);
    var p2 := VisitAll(NoPeers, [k1, k2]);
    assert p2.endpoint == [k1, k2] && p2.rank == [0, 1];
    assert k1 in p2.seen;
  }

  /** The example reply `10.0.0.1, 10.0.0.2, 10.0.0.1` on port 9000 yields two
      endpoints, ranked 0 and 1 in order of appearance. */
  lemma DuplicateEndpointExample()
    ensures var p := Ranking([Some(Reply(["10.0.0.1", "10.0.0.2", "10.0.0.1"], [9000, 9000, 9000]))]);
      p.endpoint == ["10.0.0.1:9000", "10.0.0.2:9000"] && p.rank == [0, 1]
  {
    var rs := [Some(Reply(["10.0.0.1", "10.0.0.2", "10.0.0.1"], [9000, 9000, 9000]))];
    ExampleKeys();
    assert rs[..0] == [];
    assert AllKeys(rs) == ["10.0.0.1:9000", "10.0.0.2:9000", "10.0.0.1:9000"];
    RankingIsVisitAll(rs);
    ExampleVisits("10.0.0.1:9000", "10.0.0.2:9000");
  }

  /** The first comma of `n,rest` is the one after `n` when `n` holds none. */
  lemma FirstComma(n: string, rest: string)
    requires ',' !in n
    ensures FirstIndexOf(n + [','] + rest, ',') == |n|
  {
    assert (n + [','] + rest)[|n|] == ',';
  }

  lemma PortPartFields(id: string, p: string)
    requires ParseInt(p).Some? && ':' !in p
    ensures ParsePortPart(id + PortField + p) == Some((id, ParseInt(p).value))
  {
    var front := id + PortField[..|PortField| - 1];
    var body := front + [':'] + p;
    assert id + PortField + p == body;
    LastColon(front, p);
    assert body[|front| + 1..] == p;
    var head := body[..|front| + 1];
    assert head == id + PortField;
    assert head[|head| - |PortField|..] == PortField;
    assert head[..|head| - |PortField|] == id;
  }

  lemma TailFields(id: string, p: string)
    requires ParseInt(p).Some? && ':' !in p
    ensures ParseTail(IdentityField + id + PortField + p + "}") == Some((id, ParseInt(p).value))
  {
    var tail := IdentityField + id + PortField + p + "}";
    assert tail[|IdentityField|..|tail| - 1] == id + PortField + p;
    PortPartFields(id, p);
  }

  lemma RegistrationPrefix(rest: string)
    ensures ParseRegistration(SizeField + rest) == ParseAfterSize(rest)
  {
    assert (SizeField + rest)[|SizeField|..] == rest;
  }

  lemma AfterSizeFields(n: string, tail: string)
    requires ',' !in n && |tail| > 0 && tail[0] == ','
    requires ParseInt(n).Some? && ParseTail(tail).Some?
    ensures ParseAfterSize(n + tail)
         == Some(Registration(ParseInt(n).value, ParseTail(tail).value.0, ParseTail(tail).value.1))
  {
    var rest := n + tail;
    assert rest == n + [','] + tail[1..];
    FirstComma(n, tail[1..]);
    assert rest[..|n|] == n;
    assert rest[|n|..] == tail;
  }

  /** A message of seven pieces is its first piece followed by the second and
      the rest. */
  lemma SplitAfterSecond<T>(a: seq<T>, b: seq<T>, c: seq<T>, d: seq<T>, e: seq<T>, f: seq<T>, g: seq<T>)
    ensures a + b + c + d + e + f + g == a + (b + (c + d + e + f + g))
  {
    var rest := c + d + e + f + g;
    assert a + b + c + d + e + f + g == a + b + rest;
  }

  /** The registration message reads back as the fields it was made from, for
      any identity text: nothing is lost or confused between the fields. */
  lemma MakeJsonRoundTrip(reg: Registration)
    ensures ParseRegistration(MakeJson(reg)) == Some(reg)
  {
    IntStringRoundTrip(reg.clientsSize);
    IntStringRoundTrip(reg.port);
    var n, p := IntString(reg.clientsSize), IntString(reg.port);
    var tail := IdentityField + reg.identity + PortField + p + "}";
    SplitAfterSecond(SizeField, n, IdentityField, reg.identity, PortField, p, "}");
    RegistrationPrefix(n + tail);
    TailFields(reg.identity, p);
    AfterSizeFields(n, tail);
  }
}
