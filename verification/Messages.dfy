/**
 The entries of a provider call's message list, as the index keeps them: two
 64-bit digests, one of the id the runtime sent (when it sent one) and one of
 the message itself.
 */
module Messages {

  datatype Entry = Entry(hasID: bool, id: nat, digest: nat)

  /** An entry converted from a record carries no id digest when it has no id. */
  type Message = m: Entry | m.hasID || m.id == 0 witness Entry(false, 0, 0)

  /** What tells two messages apart: the id where there is one, else the digest. */
  datatype Identity = Identity(hasID: bool, v: nat)

  function IdentityOf(m: Message): Identity {
    if m.hasID then Identity(true, m.id) else Identity(false, m.digest)
  }

  function Identities(list: seq<Message>): (ids: seq<Identity>)
    ensures |ids| == |list|
    ensures forall i :: 0 <= i < |list| ==> ids[i] == IdentityOf(list[i])
  {
    seq(|list|, i requires 0 <= i < |list| => IdentityOf(list[i]))
  }

  /** The multiset of a sequence's identities, in terms of its last element. */
  lemma IdentitiesSnoc(list: seq<Message>, m: Message)
    ensures Identities(list + [m]) == Identities(list) + [IdentityOf(m)]
  {
  }

  ghost predicate IsPrefix<T>(p: seq<T>, n: seq<T>) {
    p <= n
  }
}
