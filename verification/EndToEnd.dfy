/** The codec on top of the link: clusterNet.Send on one node, clusterNet.OnMessage on the other. */
module EndToEnd {
  import opened Basics
  import Packets
  import Links
  import LinkCalls
  import Registries
  import Codec

  /** When the k-th message that SendMessage has put on a connection is an envelope, the k-th message
      handed to OnMessage is routed as that envelope exactly when the registry is coherent for what it
      carries, in every run; and it has been handed over once the link is drained or at rest. */
  lemma EnvelopesArriveInOrder<B(!new)>(tr: seq<Links.Link>, acts: seq<Links.Action>, k: nat, r: Registries.Registry,
                                        c: Registries.Coding<B>, pc: Codec.PkgCoding, e: Codec.Envelope<B>)
    requires LinkCalls.Labelled(tr, acts)
    requires Packets.Within(LinkCalls.LogAt(tr, acts, |acts|).messages, Packets.MAX_PAYLOAD)
    requires Registries.Inverse(c) && Codec.PkgInverse(pc) && Codec.SendBytes(r, c, pc, e).Ok?
    requires k < |LinkCalls.LogAt(tr, acts, |acts|).messages|
    requires var (msgId, data) := Codec.SendBytes(r, c, pc, e).value;
             LinkCalls.LogAt(tr, acts, |acts|).messages[k] == Packets.Message(msgId, data)
    ensures var s := tr[|acts|];
            var got := Links.Delivered(s);
            && (k < |got| ==>
                  (Codec.OnMessage(r, c, pc, got[k].msgId, got[k].data) == Codec.Routed(Codec.Visible(r, c, e)) <==>
                     Registries.AllCoherent(r, Codec.Carried(r, c, e))))
            && (Links.AllDrained(s) || Links.AtRest(s) ==> k < |got|)
  {
    LinkCalls.PrefixDelivery(tr, acts);
    Codec.EnvelopeRoundTrip(r, c, pc, e);
  }
}
