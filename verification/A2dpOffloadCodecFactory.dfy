/** Choosing a codec and a configuration for a remote device. */
module A2dpOffloadCodecFactory {
  import opened Wrappers
  import opened A2dpBits
  import opened A2dpCodec
  import Aac = A2dpOffloadCodecAac
  import Sbc = A2dpOffloadCodecSbc

  datatype CodecId = AAC | SBC | OTHER(code: int)

  datatype RemoteCapabilities = RemoteCapabilities(id: CodecId, seid: int, capabilities: seq<Byte>)

  datatype A2dpConfiguration = A2dpConfiguration(
    id: CodecId, remoteSeid: int, parameters: CodecParameters, configuration: seq<Byte>)

  /** Best codec first. */
  const RANKED_CODECS: seq<CodecId> := [AAC, SBC]

  function Without(codecs: seq<CodecId>, id: CodecId): seq<CodecId> {
    if codecs == [] then []
    else (if codecs[0] == id then [] else [codecs[0]]) + Without(codecs[1..], id)
  }

  /** The hinted codec, when there is one, moves to the front; the others keep their rank. */
  function Preference(hint: CodecId): seq<CodecId> {
    if hint in RANKED_CODECS then [hint] + Without(RANKED_CODECS, hint) else RANKED_CODECS
  }

  lemma PreferenceReorders(hint: CodecId)
    ensures multiset(Preference(hint)) == multiset(RANKED_CODECS)
    ensures hint in RANKED_CODECS ==> Preference(hint)[0] == hint
    ensures hint !in RANKED_CODECS ==> Preference(hint) == RANKED_CODECS
  {
    assert RANKED_CODECS[1..] == [SBC];
    assert RANKED_CODECS[1..][1..] == [];
    assert Without([SBC], hint) == if hint == SBC then [] else [SBC];
  }

  /** Index of the first remote entry for the codec, or the number of entries. */
  function FirstRemote(remotes: seq<RemoteCapabilities>, id: CodecId): (i: nat)
    ensures i <= |remotes|
    ensures i < |remotes| ==> remotes[i].id == id
    ensures forall j: nat | j < i :: remotes[j].id != id
  {
    if remotes == [] || remotes[0].id == id then 0 else FirstRemote(remotes[1..], id) + 1
  }

  function Configured(remote: RemoteCapabilities, built: Option<(seq<Byte>, CodecParameters)>): Option<A2dpConfiguration> {
    if built.None? then None else Some(A2dpConfiguration(remote.id, remote.seid, built.value.1, built.value.0))
  }

  /** What the local codecs support. */
  datatype Local = Local(aac: BitString, sbc: BitString)

  /** The local codec and the remote entry meet in every mandatory field. */
  ghost predicate Meets(local: Local, remote: RemoteCapabilities) {
    match remote.id
    case AAC => Aac.Negotiable(local.aac, BitsOf(remote.capabilities))
    case SBC => Sbc.Negotiable(local.sbc, BitsOf(remote.capabilities))
    case OTHER(_) => false
  }

  ghost predicate Workable(local: Local, remotes: seq<RemoteCapabilities>, id: CodecId) {
    var i := FirstRemote(remotes, id);
    i < |remotes| && Meets(local, remotes[i])
  }

  /** The bytes are what the codec builds for the remote, the parameters what it parses back from them. */
  ghost predicate Agreed(local: Local, remote: RemoteCapabilities, hint: Option<CodecParameters>, c: A2dpConfiguration) {
    c.id == remote.id && c.remoteSeid == remote.seid &&
    match c.id
    case AAC =>
      Aac.Built(local.aac, BitsOf(remote.capabilities), hint, BitsOf(c.configuration))
      && c.parameters == Aac.ParsedParameters(BitsOf(c.configuration))
    case SBC =>
      Sbc.Built(local.sbc, BitsOf(remote.capabilities), hint, BitsOf(c.configuration))
      && c.parameters == Sbc.ParsedParameters(BitsOf(c.configuration))
    case OTHER(_) => false
  }

  /** The configuration is agreed with the first remote entry of the first workable codec of the list. */
  ghost predicate Chosen(local: Local, remotes: seq<RemoteCapabilities>, codecs: seq<CodecId>,
                         hint: Option<CodecParameters>, c: A2dpConfiguration) {
    && Workable(local, remotes, c.id)
    && Agreed(local, remotes[FirstRemote(remotes, c.id)], hint, c)
    && exists k: nat :: k < |codecs| && codecs[k] == c.id && forall j: nat | j < k :: !Workable(local, remotes, codecs[j])
  }

  lemma SameCodecs(hint: CodecId)
    ensures forall id :: id in Preference(hint) <==> id in RANKED_CODECS
  {
    PreferenceReorders(hint);
    assert forall id :: id in Preference(hint) <==> id in multiset(Preference(hint));
    assert forall id :: id in RANKED_CODECS <==> id in multiset(RANKED_CODECS);
  }

  /** SBC before AAC exactly when SBC is hinted. */
  lemma PreferenceSpelled(hint: CodecId)
    ensures Preference(hint) == if hint == SBC then [SBC, AAC] else [AAC, SBC]
  {
    assert RANKED_CODECS[1..] == [SBC] && RANKED_CODECS[1..][1..] == [];
    assert Without([SBC], hint) == if hint == SBC then [] else [SBC];
  }

  /** AAC is chosen exactly when it works and SBC is not both hinted and working. */
  lemma AacUnlessHinted(local: Local, remotes: seq<RemoteCapabilities>, hintedCodec: CodecId, c: CodecId, k: nat)
    requires k < |Preference(hintedCodec)| && Preference(hintedCodec)[k] == c && Workable(local, remotes, c)
    requires forall j: nat | j < k :: !Workable(local, remotes, Preference(hintedCodec)[j])
    ensures c in {AAC, SBC}
    ensures c == AAC <==> Workable(local, remotes, AAC) && !(hintedCodec == SBC && Workable(local, remotes, SBC))
  {
    PreferenceSpelled(hintedCodec);
    if k == 1 {
      assert !Workable(local, remotes, Preference(hintedCodec)[0]);
    }
  }

  lemma ChosenSpelled(local: Local, remotes: seq<RemoteCapabilities>, hintedCodec: CodecId,
                      hint: Option<CodecParameters>, c: A2dpConfiguration)
    requires Chosen(local, remotes, Preference(hintedCodec), hint, c)
    ensures c.id in {AAC, SBC}
    ensures c.id == AAC <==> Workable(local, remotes, AAC) && !(hintedCodec == SBC && Workable(local, remotes, SBC))
  {
    var codecs := Preference(hintedCodec);
    var k: nat :| k < |codecs| && codecs[k] == c.id && forall j: nat | j < k :: !Workable(local, remotes, codecs[j]);
    AacUnlessHinted(local, remotes, hintedCodec, c.id, k);
  }

  lemma NoneWorks(local: Local, remotes: seq<RemoteCapabilities>)
    ensures (forall id | id in RANKED_CODECS :: !Workable(local, remotes, id))
       <==> !Workable(local, remotes, AAC) && !Workable(local, remotes, SBC)
  {
    assert AAC in RANKED_CODECS && SBC in RANKED_CODECS;
    assert forall id | id in RANKED_CODECS :: id == AAC || id == SBC;
  }

  class Factory {
    const aac: Aac.A2dpOffloadCodecAac
    const sbc: Sbc.A2dpOffloadCodecSbc

    ghost predicate Valid()
      reads aac.capabilities, sbc.capabilities
    {
      aac.Valid() && sbc.Valid()
    }

    ghost function Locals(): Local
      reads aac.capabilities, sbc.capabilities
    {
      Local(BitsOf(aac.capabilities[..]), BitsOf(sbc.capabilities[..]))
    }

    constructor ()
      ensures Valid()
    {
      aac := new Aac.A2dpOffloadCodecAac();
      sbc := new Sbc.A2dpOffloadCodecSbc();
    }

    /** One turn of the selection loop: find the remote entry, build, parse. */
    method TryCodec(remotes: seq<RemoteCapabilities>, id: CodecId, hint: Option<CodecParameters>)
      returns (configuration: Option<A2dpConfiguration>)
      requires Valid() && id in RANKED_CODECS
      ensures configuration.Some? <==> Workable(Locals(), remotes, id)
      ensures configuration.Some? ==>
        configuration.value.id == id && Agreed(Locals(), remotes[FirstRemote(remotes, id)], hint, configuration.value)
    {
      var i := FirstRemote(remotes, id);
      if i == |remotes| {
        return None;
      }
      configuration := TryRemote(remotes[i], hint);
    }

    method TryRemote(remote: RemoteCapabilities, hint: Option<CodecParameters>)
      returns (configuration: Option<A2dpConfiguration>)
      requires Valid() && remote.id in RANKED_CODECS
      ensures configuration.Some? <==> Meets(Locals(), remote)
      ensures configuration.Some? ==> Agreed(Locals(), remote, hint, configuration.value)
    {
      if remote.id == AAC {
        configuration := TryAac(remote, hint);
      } else {
        configuration := TrySbc(remote, hint);
      }
    }

    method TryAac(remote: RemoteCapabilities, hint: Option<CodecParameters>)
      returns (configuration: Option<A2dpConfiguration>)
      requires Valid() && remote.id == AAC
      ensures configuration.Some? <==> Meets(Locals(), remote)
      ensures configuration.Some? ==> Agreed(Locals(), remote, hint, configuration.value)
    {
      var configured := aac.Configure(remote.capabilities, hint);
      configuration := Configured(remote, configured);
    }

    method TrySbc(remote: RemoteCapabilities, hint: Option<CodecParameters>)
      returns (configuration: Option<A2dpConfiguration>)
      requires Valid() && remote.id == SBC
      ensures configuration.Some? <==> Meets(Locals(), remote)
      ensures configuration.Some? ==> Agreed(Locals(), remote, hint, configuration.value)
    {
      var configured := sbc.Configure(remote.capabilities, hint);
      configuration := Configured(remote, configured);
    }

    /** The selection loop: the first workable codec of the list. */
    method FirstConfigured(remotes: seq<RemoteCapabilities>, codecs: seq<CodecId>, hint: Option<CodecParameters>)
      returns (configuration: Option<A2dpConfiguration>)
      requires Valid() && forall id | id in codecs :: id in RANKED_CODECS
      ensures configuration == None <==> forall id | id in codecs :: !Workable(Locals(), remotes, id)
      ensures configuration.Some? ==> Chosen(Locals(), remotes, codecs, hint, configuration.value)
    {
      configuration := None;
      var k := 0;
      while k < |codecs|
        invariant k <= |codecs|
        invariant configuration == None
        invariant forall j: nat | j < k :: !Workable(Locals(), remotes, codecs[j])
      {
        configuration := TryCodec(remotes, codecs[k], hint);
        if configuration.Some? {
          return;
        }
        k := k + 1;
      }
    }

    /** The first workable codec in hinted-first, then ranked order; none exactly when no ranked codec works. */
    method GetConfiguration(remotes: seq<RemoteCapabilities>, hintedCodec: CodecId, hint: Option<CodecParameters>)
      returns (configuration: Option<A2dpConfiguration>)
      requires Valid()
      ensures configuration == None <==> forall id | id in RANKED_CODECS :: !Workable(Locals(), remotes, id)
      ensures configuration.Some? ==> Chosen(Locals(), remotes, Preference(hintedCodec), hint, configuration.value)
      ensures configuration == None <==> !Workable(Locals(), remotes, AAC) && !Workable(Locals(), remotes, SBC)
      ensures configuration.Some? ==> configuration.value.id in {AAC, SBC}
      ensures configuration.Some? ==>
        (configuration.value.id == AAC <==>
           Workable(Locals(), remotes, AAC) && !(hintedCodec == SBC && Workable(Locals(), remotes, SBC)))
    {
      SameCodecs(hintedCodec);
      configuration := FirstConfigured(remotes, Preference(hintedCodec), hint);
      NoneWorks(Locals(), remotes);
      if configuration.Some? {
        ChosenSpelled(Locals(), remotes, hintedCodec, hint, configuration.value);
      }
    }
  }
}
