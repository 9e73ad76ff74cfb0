/**
  Writer and parser together, and the parser after an error.
*/
module Codec {
  import opened Common
  import opened MqttPacket
  import opened BufferList
  import opened ParserSpec
  import opened StreamRoundTrip
  import opened WriterSpec
  import opened WriterExact

  ghost predicate AllSendable(ps: seq<Packet>) {
    ps == [] || (Sendable(ps[0]) && AllSendable(ps[1..]))
  }

  /** What generate returns for a packet the writer accepts. */
  function Generated(p: Packet): Octets
    requires Shaped(p.cmd, p.fields)
  {
    var a := Attempted(p);
    if a.Written? then Joined(a.cs) else []
  }

  function AllGenerated(ps: seq<Packet>): Octets
    requires AllValid(ps)
  {
    if ps == [] then [] else Generated(ps[0]) + AllGenerated(ps[1..])
  }

  lemma {:induction false} GeneratedIsEncoded(ps: seq<Packet>)
    requires AllValid(ps) && AllSendable(ps)
    ensures AllGenerated(ps) == Encodings(ps)
  {
    if ps != [] {
      GeneratesExactly(ps[0]);
      GeneratedIsEncoded(ps[1..]);
    }
  }

  /** What the writer generates for any list of packets, cut into any chunks, the parser emits: those packets, in order. */
  lemma {:induction false} WriterThenParser(st: State, ps: seq<Packet>, chunks: seq<Octets>)
    requires Ready(st) && AllValid(ps) && AllSendable(ps) && Flat(chunks) == AllGenerated(ps)
    ensures Sane(st) && Ready(FedAll(st, chunks)) && FedAll(st, chunks).events == st.events + Heard(ps)
  {
    GeneratedIsEncoded(ps);
    StreamRoundTrip.StreamRoundTrip(st, ps, chunks);
  }

  /** An error loses what was buffered and nothing else: the next chunk is parsed as by a new parser. */
  lemma AfterAnError(st: State, ps: seq<Packet>, chunks: seq<Octets>)
    requires Sane(st) && st.error.Some? && AllValid(ps) && AllSendable(ps)
    requires chunks != [] && Flat(chunks) == AllGenerated(ps)
    ensures Ready(FedAll(st, chunks)) && FedAll(st, chunks).events == st.events + Heard(ps)
  {
    WriterThenParser(Reset(st), ps, chunks);
    assert Fed(st, chunks[0]) == Fed(Reset(st), chunks[0]);
  }
}
