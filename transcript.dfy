/**
 * The Fiat-Shamir transcript, seen only as its append-only log of labelled messages; the hash
 * chain that turns the log into challenges is not modelled.
 */
module Transcripts {
  import opened Primitives

  datatype Entry = Entry(name: string, message: seq<byte>)

  /** The bytes of an ASCII label, as a `b"..."` literal gives them. */
  function Ascii(s: string): (bytes: seq<byte>)
    requires forall i :: 0 <= i < |s| ==> s[i] as int < 0x80
    ensures |bytes| == |s| && forall i :: 0 <= i < |s| ==> bytes[i] == s[i] as int
  {
    seq(|s|, i requires 0 <= i < |s| => s[i] as int)
  }

  class Transcript {
    var log: seq<Entry>

    /** `Transcript::new(label)`: the log starts with the domain separator. */
    constructor (domain: string)
      requires forall i :: 0 <= i < |domain| ==> domain[i] as int < 0x80
      ensures log == [Entry("dom-sep", Ascii(domain))]
    {
      log := [Entry("dom-sep", Ascii(domain))];
    }

    /** `append_message`, and `append_commitment`, which appends a commitment's 32 bytes. */
    method AppendMessage(name: string, message: seq<byte>)
      modifies this
      ensures log == old(log) + [Entry(name, message)]
    {
      log := log + [Entry(name, message)];
    }

    /** The messages and challenge labels a sub-proof's prover or verifier adds on its own. */
    method AppendEntries(entries: seq<Entry>)
      modifies this
      ensures log == old(log) + entries
    {
      log := log + entries;
    }
  }
}
