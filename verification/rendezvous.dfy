/** The two pure pieces of the rendezvous client (src/client.cpp): the
    registration message a worker sends to each broker (`MakeJson`) and the
    rank assignment over the brokers' membership replies (`ParseJson`).
    Sockets, threads and JSON decoding are outside the model: a reply arrives
    already decoded, or as `None` when the JSON reader rejected it. */
module Rendezvous {
  import opened Wrappers
  import opened Seqs
  import opened Decimal

  /** The `linkinfos` object of one broker reply: the parallel `ClientIps` and
      `ClientPorts` arrays. */
  datatype Reply = Reply(clientIps: seq<string>, clientPorts: seq<int>)

  /** `ClientPorts[j]` read as an int. An index past the end of the array reads
      a null JSON value, whose integer reading is 0. */
  function PortAt(r: Reply, j: nat): (port: int)
    ensures j < |r.clientPorts| ==> port == r.clientPorts[j]
    ensures j >= |r.clientPorts| ==> port == 0
  {
    if j < |r.clientPorts| then r.clientPorts[j] else 0
  }

  /** The dedup key: the IP text, a colon, and the decimal port. The IP is
      a prefix of the key and the text after its colon holds no colon, so
      the key's last colon is the separator; `RendezvousLemmas.KeyReadsBack`
      reads the port back from that text. */
  function EndpointKey(ip: string, port: int): (k: string)
    ensures |k| > |ip| && k[..|ip|] == ip && k[|ip|] == ':'
    ensures ':' !in k[|ip| + 1..]
  {
    var k := ip + ":" + IntString(port);
    assert k[|ip| + 1..] == IntString(port);
    k
  }

  /** The keys of one reply in array order, one per IP: the loop runs over
      `ClientIps` only, so surplus ports are never read. What each key holds
      is stated by `RendezvousLemmas.ReplyKeyReads`. */
  function ReplyKeys(r: Reply): (keys: seq<string>)
    ensures |keys| == |r.clientIps|
  {
    seq(|r.clientIps|, j requires 0 <= j < |r.clientIps| => EndpointKey(r.clientIps[j], PortAt(r, j)))
  }

  /** The keys of one decoded reply; a reply that failed to parse has none. */
  function KeysOf(reply: Option<Reply>): seq<string> {
    match reply
    case None => []
    case Some(r) => ReplyKeys(r)
  }

  /** Every key of every parsed reply, replies taken in order. */
  function AllKeys(replies: seq<Option<Reply>>): seq<string> {
    if |replies| == 0 then []
    else AllKeys(replies[..|replies| - 1]) + KeysOf(replies[|replies| - 1])
  }

  /** The state `ParseJson` keeps across replies: the `rank` and `endpoint`
      output arrays filled so far (their common length is `count`) and the
      `endpoint_set` of keys already seen. */
  datatype Peers = Peers(rank: seq<int>, endpoint: seq<string>, seen: set<string>)

  const NoPeers: Peers := Peers([], [], {})

  /** Slot k holds rank k, no endpoint is filled twice, and the seen-set is
      exactly the set of filled endpoints. */
  ghost predicate Valid(p: Peers) {
    && |p.rank| == |p.endpoint|
    && (forall k :: 0 <= k < |p.rank| ==> p.rank[k] == k)
    && Distinct(p.endpoint)
    && p.seen == Elems(p.endpoint)
  }

  /** One iteration of the inner loop: a key not yet seen takes the next rank. */
  function Visit(p: Peers, key: string): (q: Peers)
    requires Valid(p)
    ensures Valid(q)
    ensures key in p.seen ==> q == p
    ensures key !in p.seen ==> q.endpoint == p.endpoint + [key] && q.rank == p.rank + [|p.endpoint|]
  {
    if key !in p.seen then
      Peers(p.rank + [|p.endpoint|], p.endpoint + [key], p.seen + {key})
    else
      p
  }

  /** The inner loop over a run of keys. Filled slots are never rewritten. */
  function VisitAll(p: Peers, keys: seq<string>): (q: Peers)
    requires Valid(p)
    ensures Valid(q)
    ensures p.endpoint <= q.endpoint
    decreases |keys|
  {
    if |keys| == 0 then p
    else Visit(VisitAll(p, keys[..|keys| - 1]), keys[|keys| - 1])
  }

  /** One more key is one more iteration of the inner loop. */
  lemma VisitAllStep(p: Peers, keys: seq<string>, j: nat)
    requires Valid(p) && j < |keys|
    ensures VisitAll(p, keys[..j + 1]) == Visit(VisitAll(p, keys[..j]), keys[j])
  {
    assert keys[..j + 1][..j] == keys[..j];
  }

  /** One iteration of the outer loop: a parsed reply feeds its keys to the
      shared state, a reply that failed to parse is skipped. */
  function Absorb(p: Peers, reply: Option<Reply>): (q: Peers)
    requires Valid(p)
    ensures Valid(q)
    ensures reply.None? ==> q == p
  {
    match reply
    case None => p
    case Some(r) => VisitAll(p, ReplyKeys(r))
  }

  /** The state after `ParseJson` has walked the given replies. */
  function Ranking(replies: seq<Option<Reply>>): (p: Peers)
    ensures Valid(p)
  {
    if |replies| == 0 then NoPeers
    else
      Absorb(Ranking(replies[..|replies| - 1]), replies[|replies| - 1])
  }

  /** `Client::ParseJson`: the nested loops over replies and their entries,
      with the counter and the seen-set shared by all replies. Returns the
      filled prefixes of the `rank` and `endpoint` arrays. */
  method ParseJson(replies: seq<Option<Reply>>) returns (rank: seq<int>, endpoint: seq<string>)
    ensures rank == Ranking(replies).rank && endpoint == Ranking(replies).endpoint
    ensures |rank| == |endpoint|
    ensures forall k :: 0 <= k < |rank| ==> rank[k] == k
    ensures Distinct(endpoint)
    ensures forall e :: e in endpoint <==> e in AllKeys(replies)
  {
    var seen: set<string> := {};
    var count := 0;
    rank, endpoint := [], [];
    var i := 0;
    while i < |replies|
      invariant 0 <= i <= |replies|
      invariant Ranking(replies[..i]) == Peers(rank, endpoint, seen)
      invariant count == |endpoint|
    {
      assert replies[..i + 1][..i] == replies[..i];
      ghost var before := Ranking(replies[..i]);
      match replies[i] {
        case None =>
        case Some(r) =>
          var j := 0;
          while j < |r.clientIps|
            invariant 0 <= j <= |r.clientIps|
            invariant VisitAll(before, ReplyKeys(r)[..j]) == Peers(rank, endpoint, seen)
            invariant count == |endpoint|
          {
            VisitAllStep(before, ReplyKeys(r), j);
            var key := EndpointKey(r.clientIps[j], PortAt(r, j));
            assert key == ReplyKeys(r)[j];
            if key !in seen {
              rank := rank + [count];
              endpoint := endpoint + [key];
              seen := seen + {key};
              count := count + 1;
            }
            j := j + 1;
          }
          assert ReplyKeys(r)[..j] == ReplyKeys(r);
      }
      i := i + 1;
    }
    assert replies[..i] == replies;
    RankingMembers(replies);
  }

  /** Afterwards the filled endpoints are exactly the old ones and the
      keys. */
  lemma {:induction false} VisitAllMembers(p: Peers, keys: seq<string>)
    requires Valid(p)
    ensures forall e :: e in VisitAll(p, keys).endpoint <==> e in p.endpoint || e in keys
    decreases |keys|
  {
    if |keys| > 0 {
      var init := keys[..|keys| - 1];
      assert keys == init + [keys[|keys| - 1]];
      VisitAllMembers(p, init);
    }
  }

  /** The filled endpoints are exactly the keys of the parsed replies. */
  lemma {:induction false} RankingMembers(replies: seq<Option<Reply>>)
    ensures forall e :: e in Ranking(replies).endpoint <==> e in AllKeys(replies)
    decreases |replies|
  {
    if |replies| > 0 {
      var init := replies[..|replies| - 1];
      RankingMembers(init);
      var last := replies[|replies| - 1];
      if last.Some? {
        VisitAllMembers(Ranking(init), ReplyKeys(last.value));
      }
    }
  }

  /** The fields of the registration message. */
  datatype Registration = Registration(clientsSize: int, identity: string, port: int)

  const SizeField: string := "{\"clientsSize\":"
  const IdentityField: string := ",\"identity\":"
  const PortField: string := ",\"port\":"

  /** `Client::MakeJson`: the two ints in decimal, the identity copied in as
      is (no quotes are added around it). */
  function MakeJson(reg: Registration): (msg: string)
    ensures SizeField <= msg && msg[|msg| - 1] == '}'
  {
    SizeField + IntString(reg.clientsSize) + IdentityField + reg.identity
      + PortField + IntString(reg.port) + "}"
  }

  /** The position of the first `c` in `s`, or `|s|` when there is none. */
  function FirstIndexOf(s: string, c: char): (i: nat)
    ensures i <= |s|
    ensures i < |s| ==> s[i] == c
    ensures forall k :: 0 <= k < i ==> s[k] != c
  {
    if |s| == 0 then 0
    else if s[0] == c then 0
    else 1 + FirstIndexOf(s[1..], c)
  }

  /** The position of the last `c` in `s`, if any. */
  function LastIndexOf(s: string, c: char): (r: Option<nat>)
    ensures r.None? ==> c !in s
    ensures r.Some? ==> r.value < |s| && s[r.value] == c
    ensures r.Some? ==> forall k :: r.value < k < |s| ==> s[k] != c
  {
    if |s| == 0 then None
    else if s[|s| - 1] == c then Some(|s| - 1)
    else LastIndexOf(s[..|s| - 1], c)
  }

  /** Reads `<identity>,"port":<port>`: the port follows the last colon. */
  function ParsePortPart(body: string): Option<(string, int)> {
    match LastIndexOf(body, ':')
    case None => None
    case Some(colon) =>
      var port := ParseInt(body[colon + 1..]);
      var head := body[..colon + 1];
      if port.None? || |head| < |PortField| || head[|head| - |PortField|..] != PortField then None
      else Some((head[..|head| - |PortField|], port.value))
  }

  /** Reads `,"identity":<identity>,"port":<port>}`. */
  function ParseTail(tail: string): Option<(string, int)> {
    if !(IdentityField <= tail) || |tail| <= |IdentityField| || tail[|tail| - 1] != '}' then None
    else ParsePortPart(tail[|IdentityField|..|tail| - 1])
  }

  /** Reads `<size>,"identity":<identity>,"port":<port>}`: the size runs up
      to the first comma. */
  function ParseAfterSize(rest: string): Option<Registration> {
    var comma := FirstIndexOf(rest, ',');
    var size := ParseInt(rest[..comma]);
    var tail := ParseTail(rest[comma..]);
    if size.None? || tail.None? then None
    else Some(Registration(size.value, tail.value.0, tail.value.1))
  }

  /** A reader for registration messages: the clients size runs up to the
      first comma, the port follows the last colon, and the identity is what
      lies between the identity field and the port field. */
  function ParseRegistration(msg: string): Option<Registration> {
    if SizeField <= msg then ParseAfterSize(msg[|SizeField|..]) else None
  }
}
