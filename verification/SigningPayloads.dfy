/** The byte strings that sessions sign, and why two of them are never confused. */
module SigningPayloads {
  import opened Bytes

  const U32_LIMIT: nat := 0x1_0000_0000

  function Ascii(s: string): (r: seq<Byte>)
    requires forall i :: 0 <= i < |s| ==> s[i] as int < 128
  {
    seq(|s|, i requires 0 <= i < |s| => s[i] as int)
  }

  const MUTATION_DOMAIN := Ascii("FORTIQ-TICKET-STATE-v1:")
  const SESSION_DOMAIN := Ascii("FORTIQ-SESSION-AUTH-v1:")
  const SHELL_DOMAIN := Ascii("FORTIQ-SHELL-v3:")

  /** What is signed: a ticket transition, an operation of an operator session, or a shell challenge. */
  datatype Signed =
    | Mutation(network: seq<Byte>, ticket: seq<Byte>, revision: nat, state: Byte, request: seq<Byte>, peer: seq<Byte>)
    | Session(operation: seq<Byte>, ticket: seq<Byte>, request: seq<Byte>, createdAt: nat, content: seq<Byte>,
              peer: seq<Byte>)
    | Shell(network: seq<Byte>, ticket: seq<Byte>, peer: seq<Byte>, challenge: seq<Byte>)

  predicate Short(s: seq<Byte>) {
    |s| < U32_LIMIT
  }

  /** Fixed-size fields have their size, numbers are 64-bit and texts are shorter than 2^32 bytes. */
  predicate Sized(s: Signed) {
    match s
    case Mutation(network, ticket, revision, _, request, peer) =>
      |network| == 32 && Short(ticket) && revision < Pow256(8) && |request| == 16 && Short(peer)
    case Session(operation, ticket, request, createdAt, content, peer) =>
      Short(operation) && Short(ticket) && Short(request) && createdAt < Pow256(8) && Short(content) && Short(peer)
    case Shell(network, ticket, peer, challenge) =>
      |network| == 32 && Short(ticket) && Short(peer) && |challenge| == 32
  }

  /** A text preceded by its length, truncated to 32 bits as in the source. */
  function Field(s: seq<Byte>): (r: seq<Byte>) {
    ToBE(|s|, 4) + s
  }

  function Body(s: Signed): seq<Byte> {
    match s
    case Mutation(network, ticket, revision, state, request, peer) =>
      network + (Field(ticket) + (ToBE(revision, 8) + ([state] + (request + Field(peer)))))
    case Session(operation, ticket, request, createdAt, content, peer) =>
      Field(operation) + (Field(ticket) + (Field(request) + (Field(content) + (Field(peer) + ToBE(createdAt, 8)))))
    case Shell(network, ticket, peer, challenge) =>
      network + (Field(ticket) + (Field(peer) + challenge))
  }

  function Domain(s: Signed): seq<Byte> {
    match s
    case Mutation(_, _, _, _, _, _) => MUTATION_DOMAIN
    case Session(_, _, _, _, _, _) => SESSION_DOMAIN
    case Shell(_, _, _, _) => SHELL_DOMAIN
  }

  function Payload(s: Signed): seq<Byte> {
    Domain(s) + Body(s)
  }

  /** Appends each value preceded by its length. */
  method AppendFields(start: seq<Byte>, values: seq<seq<Byte>>) returns (payload: seq<Byte>)
    ensures payload == start + Fields(values)
  {
    payload := start;
    for i := 0 to |values|
      invariant payload == start + Fields(values[..i])
    {
      FieldsSnoc(values[..i], values[i]);
      assert values[..i] + [values[i]] == values[..i + 1];
      payload := payload + ToBE(|values[i]|, 4);
      payload := payload + values[i];
    }
    assert values[..|values|] == values;
  }

  /** The session payload as the source builds it: one loop over the five texts, then the time. */
  method SessionSigningPayload(s: Signed) returns (payload: seq<Byte>)
    requires s.Session?
    ensures payload == Payload(s)
  {
    payload := AppendFields(SESSION_DOMAIN, [s.operation, s.ticket, s.request, s.content, s.peer]);
    FiveFields(s.operation, s.ticket, s.request, s.content, s.peer, ToBE(s.createdAt, 8));
    payload := payload + ToBE(s.createdAt, 8);
  }

  /** The mutation payload, pushed piece by piece. */
  method MutationSigningPayload(s: Signed) returns (payload: seq<Byte>)
    requires s.Mutation?
    ensures payload == Payload(s)
  {
    payload := MUTATION_DOMAIN;
    payload := payload + s.network;
    payload := payload + Field(s.ticket);
    payload := payload + ToBE(s.revision, 8);
    payload := payload + [s.state];
    payload := payload + s.request;
    payload := payload + Field(s.peer);
    RegroupSeven(MUTATION_DOMAIN, s.network, Field(s.ticket), ToBE(s.revision, 8), [s.state], s.request, Field(s.peer));
  }

  lemma RegroupSeven(a: seq<Byte>, b: seq<Byte>, c: seq<Byte>, d: seq<Byte>, e: seq<Byte>, f: seq<Byte>, g: seq<Byte>)
    ensures a + b + c + d + e + f + g == a + (b + (c + (d + (e + (f + g)))))
  {
    assert e + f + g == e + (f + g);
    assert d + e + f + g == d + (e + f + g);
    assert c + d + e + f + g == c + (d + e + f + g);
    assert b + c + d + e + f + g == b + (c + d + e + f + g);
    assert a + b + c + d + e + f + g == a + (b + c + d + e + f + g);
  }

  /** The shell challenge payload, pushed piece by piece. */
  method ShellSigningPayload(s: Signed) returns (payload: seq<Byte>)
    requires s.Shell?
    ensures payload == Payload(s)
  {
    payload := SHELL_DOMAIN;
    payload := payload + s.network;
    payload := payload + Field(s.ticket);
    payload := payload + Field(s.peer);
    payload := payload + s.challenge;
  }

  function Fields(values: seq<seq<Byte>>): seq<Byte> {
    if values == [] then [] else Fields(values[..|values| - 1]) + Field(values[|values| - 1])
  }

  lemma FieldsSnoc(values: seq<seq<Byte>>, v: seq<Byte>)
    ensures Fields(values + [v]) == Fields(values) + Field(v)
  {
    assert (values + [v])[..|values|] == values;
  }

  lemma FiveFields(a: seq<Byte>, b: seq<Byte>, c: seq<Byte>, d: seq<Byte>, e: seq<Byte>, last: seq<Byte>)
    ensures Fields([a, b, c, d, e]) + last
         == Field(a) + (Field(b) + (Field(c) + (Field(d) + (Field(e) + last))))
  {
    FieldsSnoc([], a);
    FieldsSnoc([a], b);
    FieldsSnoc([a, b], c);
    FieldsSnoc([a, b, c], d);
    FieldsSnoc([a, b, c, d], e);
    assert [] + [a] == [a] && [a] + [b] == [a, b] && [a, b] + [c] == [a, b, c];
    assert [a, b, c] + [d] == [a, b, c, d] && [a, b, c, d] + [e] == [a, b, c, d, e];
  }

  // ---- Parsing back, one field at a time ----

  lemma PeelFixed(a: seq<Byte>, x: seq<Byte>, b: seq<Byte>, y: seq<Byte>)
    requires |a| == |b| && a + x == b + y
    ensures a == b && x == y
  {
    assert a == (a + x)[..|a|] && b == (b + y)[..|b|];
    assert x == (a + x)[|a|..] && y == (b + y)[|b|..];
  }

  lemma PeelNumber(m: nat, x: seq<Byte>, n: nat, y: seq<Byte>, width: nat)
    requires m < Pow256(width) && n < Pow256(width) && ToBE(m, width) + x == ToBE(n, width) + y
    ensures m == n && x == y
  {
    PeelFixed(ToBE(m, width), x, ToBE(n, width), y);
    FromToBE(m, width);
    FromToBE(n, width);
  }

  lemma PeelField(a: seq<Byte>, x: seq<Byte>, b: seq<Byte>, y: seq<Byte>)
    requires Short(a) && Short(b) && Field(a) + x == Field(b) + y
    ensures a == b && x == y
  {
    Pow256Values();
    assert Field(a) + x == ToBE(|a|, 4) + (a + x);
    assert Field(b) + y == ToBE(|b|, 4) + (b + y);
    PeelNumber(|a|, a + x, |b|, b + y, 4);
    PeelFixed(a, x, b, y);
  }

  /** The three domain prefixes differ within their first nine bytes. */
  lemma DomainsDiffer(a: Signed, b: Signed)
    requires Payload(a) == Payload(b)
    ensures Domain(a) == Domain(b) && Body(a) == Body(b)
    ensures a.Mutation? == b.Mutation? && a.Session? == b.Session?
  {
    assert MUTATION_DOMAIN[7] == 'T' as int && SESSION_DOMAIN[7] == 'S' as int && SHELL_DOMAIN[7] == 'S' as int;
    assert SESSION_DOMAIN[8] == 'E' as int && SHELL_DOMAIN[8] == 'H' as int;
    assert Payload(a)[7] == Domain(a)[7] && Payload(b)[7] == Domain(b)[7];
    assert Payload(a)[8] == Domain(a)[8] && Payload(b)[8] == Domain(b)[8];
    PeelFixed(Domain(a), Body(a), Domain(b), Body(b));
  }

  lemma MutationUnambiguous(a: Signed, b: Signed)
    requires a.Mutation? && b.Mutation? && Sized(a) && Sized(b) && Body(a) == Body(b)
    ensures a == b
  {
    var a3, b3 := a.request + Field(a.peer), b.request + Field(b.peer);
    var a2, b2 := ToBE(a.revision, 8) + ([a.state] + a3), ToBE(b.revision, 8) + ([b.state] + b3);
    PeelFixed(a.network, Field(a.ticket) + a2, b.network, Field(b.ticket) + b2);
    PeelField(a.ticket, a2, b.ticket, b2);
    PeelNumber(a.revision, [a.state] + a3, b.revision, [b.state] + b3, 8);
    PeelFixed([a.state], a3, [b.state], b3);
    PeelFixed(a.request, Field(a.peer), b.request, Field(b.peer));
    assert Field(a.peer) + [] == Field(a.peer) && Field(b.peer) + [] == Field(b.peer);
    PeelField(a.peer, [], b.peer, []);
  }

  lemma SessionUnambiguous(a: Signed, b: Signed)
    requires a.Session? && b.Session? && Sized(a) && Sized(b) && Body(a) == Body(b)
    ensures a == b
  {
    var a5, b5 := ToBE(a.createdAt, 8), ToBE(b.createdAt, 8);
    var a4, b4 := Field(a.peer) + a5, Field(b.peer) + b5;
    var a3, b3 := Field(a.content) + a4, Field(b.content) + b4;
    var a2, b2 := Field(a.request) + a3, Field(b.request) + b3;
    PeelField(a.operation, Field(a.ticket) + a2, b.operation, Field(b.ticket) + b2);
    PeelField(a.ticket, a2, b.ticket, b2);
    PeelField(a.request, a3, b.request, b3);
    PeelField(a.content, a4, b.content, b4);
    PeelField(a.peer, a5, b.peer, b5);
    assert a5 + [] == a5 && b5 + [] == b5;
    PeelNumber(a.createdAt, [], b.createdAt, [], 8);
  }

  lemma ShellUnambiguous(a: Signed, b: Signed)
    requires a.Shell? && b.Shell? && Sized(a) && Sized(b) && Body(a) == Body(b)
    ensures a == b
  {
    var a2, b2 := Field(a.peer) + a.challenge, Field(b.peer) + b.challenge;
    PeelFixed(a.network, Field(a.ticket) + a2, b.network, Field(b.ticket) + b2);
    PeelField(a.ticket, a2, b.ticket, b2);
    PeelField(a.peer, a.challenge, b.peer, b.challenge);
  }

  /** Equal payloads come from equal fields of the same kind. */
  lemma PayloadUnambiguous(a: Signed, b: Signed)
    requires Sized(a) && Sized(b) && Payload(a) == Payload(b)
    ensures a == b
  {
    DomainsDiffer(a, b);
    match a {
      case Mutation(_, _, _, _, _, _) => MutationUnambiguous(a, b);
      case Session(_, _, _, _, _, _) => SessionUnambiguous(a, b);
      case Shell(_, _, _, _) => ShellUnambiguous(a, b);
    }
  }

  lemma LongField(s: seq<Byte>, n: nat)
    requires |s| == n + U32_LIMIT
    ensures Field(s) == ToBE(n, 4) + s
  {
    Pow256Values();
    ToBEWraps(n, 4);
  }

  lemma Regroup(z: seq<Byte>, a: seq<Byte>, f: seq<Byte>, g: seq<Byte>, c: seq<Byte>)
    ensures (z + (a + f)) + (g + c) == (z + []) + ((a + (f + g)) + c)
  {
  }

  /** The bound on the texts is needed: the length is written as 32 bits, so a text of 2^32 bytes reads like an
      empty one followed by its own contents. */
  lemma LongTextsCollide(network: seq<Byte>, peer: seq<Byte>, challenge: seq<Byte>, filler: seq<Byte>)
    requires |network| == 32 && Short(peer) && |challenge| == 32 && |filler| == U32_LIMIT - 4
    ensures var a := Shell(network, ToBE(|peer|, 4) + filler, peer, challenge);
      var b := Shell(network, [], filler + Field(peer), challenge);
      a != b && Payload(a) == Payload(b)
  {
    LongField(ToBE(|peer|, 4) + filler, 0);
    LongField(filler + Field(peer), |peer|);
    Regroup(ToBE(0, 4), ToBE(|peer|, 4), filler, Field(peer), challenge);
  }
}
