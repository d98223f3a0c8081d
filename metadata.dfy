/**
  The metadata phase of performExport (lines 144-209): for every concrete index
  the settings lookup returns, one settings packet, one packet per mapping type
  and, when aliases are requested, one packet per alias.
 */
module MetadataExport {
  import opened Wrappers
  import opened Archive
  import opened Cluster
  import opened Knapsack
  import SpecResolver

  type IndexMap = SpecResolver.IndexMap

  /** Lines 166-169: the settings lookup is asked for every key of the map except `_all`. */
  function SettingsRequest(indices: IndexMap): (r: set<string>)
    ensures "_all" !in r
    ensures forall k :: k in r <==> k in indices && k != "_all"
  {
    indices.Keys - {"_all"}
  }

  /** Lines 139-142 and 167-168 without explicit names: the settings lookup is asked for the index tokens other than `_all`. */
  lemma SettingsRequestInitial(indexSpec: string, typeSpec: string)
    ensures SettingsRequest(SpecResolver.InitialIndices(indexSpec, typeSpec)) == SpecResolver.TokenSet(indexSpec) - {"_all"}
  {
  }

  /**
    Lines 139-168: after the merge, the settings lookup is asked for the index
    tokens and the indices the explicit names add, except `_all`.
   */
  lemma SettingsRequestMerged(indexSpec: string, typeSpec: string, specs: seq<Option<string>>)
    requires SpecResolver.Merged(SpecResolver.InitialIndices(indexSpec, typeSpec), specs).Ok?
    ensures SettingsRequest(SpecResolver.Merged(SpecResolver.InitialIndices(indexSpec, typeSpec), specs).value) ==
      (SpecResolver.TokenSet(indexSpec) + SpecResolver.NamedIndices(specs)) - {"_all"}
  {
    SpecResolver.MergedCharacterized(SpecResolver.InitialIndices(indexSpec, typeSpec), specs);
  }

  /** The metadata loop uses only the mapping and alias lookups. */
  lemma {:induction false} MetadataFromSameLookups(req: ExportRequest, c: Client, c2: Client, indices: IndexMap,
                                                   settings: Assoc<string>)
    requires c2.mappings == c.mappings && c2.aliases == c.aliases
    ensures MetadataFrom(req, c, indices, settings) == MetadataFrom(req, c2, indices, settings)
    decreases |settings|
  {
    if settings != [] {
      MetadataFromSameLookups(req, c, c2, indices, settings[..|settings| - 1]);
    }
  }

  /**
    Lines 167-169: the only settings lookup of the phase is the one for
    `SettingsRequest(indices)`; what the cluster would answer for any other set
    of names makes no difference.
   */
  lemma MetadataAsksSettingsRequest(req: ExportRequest, c: Client, c2: Client, indices: IndexMap)
    requires c2 == c.(settings := c2.settings)
    requires c2.settings(SettingsRequest(indices)) == c.settings(SettingsRequest(indices))
    ensures MetadataEmission(req, c, indices) == MetadataEmission(req, c2, indices)
  {
    if c.settings(SettingsRequest(indices)).Ok? {
      MetadataFromSameLookups(req, c, c2, indices, c.settings(SettingsRequest(indices)).value);
    }
  }

  /** Lines 180 and 183: the type filter of the mapping lookup; none (all types) when the index is not a key. */
  function TypeFilter(indices: IndexMap, index: string): Option<set<string>>
  {
    if index in indices then Some(indices[index]) else None
  }

  function SettingsPacket(req: ExportRequest, index: string, settings: string): Packet
  {
    Packet(req.mapIndex(index), "_settings", None, None, settings)
  }

  function MappingPacket(req: ExportRequest, index: string, m: (string, string)): Packet
  {
    Packet(req.mapIndex(index), req.mapType(index, m.0), Some("_mapping"), None, m.1)
  }

  /** The alias name is written as the type, not renamed. */
  function AliasPacket(req: ExportRequest, index: string, a: (string, string)): Packet
  {
    Packet(req.mapIndex(index), a.0, Some("_alias"), None, a.1)
  }

  function MappingPackets(req: ExportRequest, index: string, ms: Assoc<string>): seq<Packet>
    decreases |ms|
  {
    if ms == [] then []
    else MappingPackets(req, index, ms[..|ms| - 1]) + [MappingPacket(req, index, ms[|ms| - 1])]
  }

  function AliasPackets(req: ExportRequest, index: string, als: Assoc<string>): seq<Packet>
    decreases |als|
  {
    if als == [] then []
    else AliasPackets(req, index, als[..|als| - 1]) + [AliasPacket(req, index, als[|als| - 1])]
  }

  /** Lines 175-207 for one settings entry: what is written before a lookup throws, or all of it. */
  function IndexMetadata(req: ExportRequest, c: Client, indices: IndexMap, entry: (string, string)): Emission
  {
    var index := entry.0;
    var head := [SettingsPacket(req, index, entry.1)];
    match c.mappings(index, TypeFilter(indices, index))
    case Err(e) => Emission(head, Some(e))
    case Ok(ms) =>
      var withMappings := head + MappingPackets(req, index, ms);
      if !req.withAliases then Emission(withMappings, None)
      else match c.aliases(index)
        case Err(e) => Emission(withMappings, Some(e))
        case Ok(als) => Emission(withMappings + AliasPackets(req, index, als), None)
  }

  /** Lines 173-208: the entries of the settings answer, in order, until a lookup throws. */
  function MetadataFrom(req: ExportRequest, c: Client, indices: IndexMap, settings: Assoc<string>): Emission
    decreases |settings|
  {
    if settings == [] then Emission([], None)
    else MetadataFrom(req, c, indices, settings[..|settings| - 1])
           .Then(IndexMetadata(req, c, indices, settings[|settings| - 1]))
  }

  /** Lines 166-208: the settings lookup, then every index it returns. */
  function MetadataEmission(req: ExportRequest, c: Client, indices: IndexMap): Emission
  {
    match c.settings(SettingsRequest(indices))
    case Err(e) => Emission([], Some(e))
    case Ok(settings) => MetadataFrom(req, c, indices, settings)
  }

  // ---------------------------------------------------------------------------
  // Properties

  lemma {:induction false} MappingPacketsAt(req: ExportRequest, index: string, ms: Assoc<string>)
    ensures |MappingPackets(req, index, ms)| == |ms|
    ensures forall j :: 0 <= j < |ms| ==> MappingPackets(req, index, ms)[j] == MappingPacket(req, index, ms[j])
    decreases |ms|
  {
    if ms != [] {
      MappingPacketsAt(req, index, ms[..|ms| - 1]);
    }
  }

  lemma {:induction false} AliasPacketsAt(req: ExportRequest, index: string, als: Assoc<string>)
    ensures |AliasPackets(req, index, als)| == |als|
    ensures forall j :: 0 <= j < |als| ==> AliasPackets(req, index, als)[j] == AliasPacket(req, index, als[j])
    decreases |als|
  {
    if als != [] {
      AliasPacketsAt(req, index, als[..|als| - 1]);
    }
  }

  /** The place of a metadata packet in the order settings, mappings, aliases. */
  function Rank(p: Packet): nat
  {
    if p.id.None? then 0 else if p.id == Some("_mapping") then 1 else 2
  }

  /** A settings packet followed by mapping packets and alias packets of one index. */
  function Block(req: ExportRequest, index: string, settings: string, ms: Assoc<string>, als: Assoc<string>): seq<Packet>
  {
    [SettingsPacket(req, index, settings)] + MappingPackets(req, index, ms) + AliasPackets(req, index, als)
  }

  lemma BlockLayout(req: ExportRequest, index: string, settings: string, ms: Assoc<string>, als: Assoc<string>)
    ensures var ps := Block(req, index, settings, ms, als);
      && |ps| == 1 + |ms| + |als|
      && (forall j :: 0 < j < |ps| ==> ps[j].id.Some?)
      && (forall j :: 0 <= j < |ps| ==> Rank(ps[j]) == (if j == 0 then 0 else if j <= |ms| then 1 else 2))
      && (forall j :: 0 <= j < |ps| ==> ps[j].index == req.mapIndex(index) && ps[j].field.None?)
  {
    MappingPacketsAt(req, index, ms);
    AliasPacketsAt(req, index, als);
    var ps := Block(req, index, settings, ms, als);
    var mp := MappingPackets(req, index, ms);
    var ap := AliasPackets(req, index, als);
    forall j | 0 <= j < |ps|
      ensures Rank(ps[j]) == (if j == 0 then 0 else if j <= |ms| then 1 else 2)
      ensures ps[j].index == req.mapIndex(index) && ps[j].field.None?
      ensures 0 < j ==> ps[j].id.Some?
    {
      if 0 < j <= |mp| {
        assert ps[j] == mp[j - 1];
      } else if j > |mp| {
        assert ps[j] == ap[j - 1 - |mp|];
      }
    }
  }

  /**
    The packets of one index: the settings packet first and only there, then the
    mapping packets, then the alias packets; all of the renamed index, none a
    document packet; one mapping packet per mapping type and, only when aliases
    are requested, one alias packet per alias.
   */
  lemma IndexMetadataShape(req: ExportRequest, c: Client, indices: IndexMap, entry: (string, string))
    ensures var e := IndexMetadata(req, c, indices, entry);
      && |e.packets| >= 1
      && e.packets[0] == SettingsPacket(req, entry.0, entry.1)
      && (forall j :: 0 < j < |e.packets| ==> e.packets[j].id.Some?)
      && (forall a, b :: 0 <= a < b < |e.packets| ==> Rank(e.packets[a]) <= Rank(e.packets[b]))
      && (forall j :: 0 <= j < |e.packets| ==> e.packets[j].index == req.mapIndex(entry.0))
      && AllMetadata(e.packets)
      && (!req.withAliases ==> forall j :: 0 <= j < |e.packets| ==> e.packets[j].id != Some("_alias"))
      && (e.failure.None? <==> c.mappings(entry.0, TypeFilter(indices, entry.0)).Ok? &&
                               (req.withAliases ==> c.aliases(entry.0).Ok?))
      && (e.failure.None? ==> |e.packets| == 1 + |c.mappings(entry.0, TypeFilter(indices, entry.0)).value| +
                               (if req.withAliases then |c.aliases(entry.0).value| else 0))
  {
    var index := entry.0;
    var e := IndexMetadata(req, c, indices, entry);
    var ms := match c.mappings(index, TypeFilter(indices, index)) case Ok(v) => v case Err(_) => [];
    var als := if req.withAliases && c.mappings(index, TypeFilter(indices, index)).Ok? then
                 match c.aliases(index) case Ok(v) => v case Err(_) => []
               else [];
    assert MappingPackets(req, index, []) == [] && AliasPackets(req, index, []) == [];
    assert e.packets == Block(req, index, entry.1, ms, als);
    BlockLayout(req, index, entry.1, ms, als);
  }

  /** The settings packets of a packet sequence (metadata packets without an id), in order. */
  function SettingsOf(ps: seq<Packet>): seq<Packet>
    decreases |ps|
  {
    if ps == [] then []
    else SettingsOf(ps[..|ps| - 1]) + (if ps[|ps| - 1].id.None? then [ps[|ps| - 1]] else [])
  }

  lemma {:induction false} SettingsOfConcat(a: seq<Packet>, b: seq<Packet>)
    ensures SettingsOf(a + b) == SettingsOf(a) + SettingsOf(b)
    decreases |b|
  {
    if b == [] {
      assert a + b == a;
    } else {
      assert (a + b)[..|a + b| - 1] == a + b[..|b| - 1];
      SettingsOfConcat(a, b[..|b| - 1]);
    }
  }

  lemma {:induction false} SettingsOfNone(ps: seq<Packet>)
    requires forall j :: 0 <= j < |ps| ==> ps[j].id.Some?
    ensures SettingsOf(ps) == []
    decreases |ps|
  {
    if ps != [] {
      SettingsOfNone(ps[..|ps| - 1]);
    }
  }

  /** One index contributes exactly its own settings packet to the settings packets. */
  lemma IndexMetadataSettings(req: ExportRequest, c: Client, indices: IndexMap, entry: (string, string))
    ensures SettingsOf(IndexMetadata(req, c, indices, entry).packets) == [SettingsPacket(req, entry.0, entry.1)]
  {
    var ps := IndexMetadata(req, c, indices, entry).packets;
    IndexMetadataShape(req, c, indices, entry);
    assert ps == [ps[0]] + ps[1..];
    SettingsOfConcat([ps[0]], ps[1..]);
    SettingsOfNone(ps[1..]);
    assert SettingsOf([ps[0]]) == [ps[0]] by {
      assert [ps[0]][..0] == [];
    }
  }

  /** The settings packets written for the settings entries, one per entry. */
  function SettingsPackets(req: ExportRequest, settings: Assoc<string>): (r: seq<Packet>)
    ensures |r| == |settings|
  {
    seq(|settings|, j requires 0 <= j < |settings| => SettingsPacket(req, settings[j].0, settings[j].1))
  }

  /**
    When the metadata phase completes, its settings packets are exactly one per
    entry of the settings answer, in the answer's order.
   */
  lemma {:induction false} SettingsPacketsInOrder(req: ExportRequest, c: Client, indices: IndexMap, settings: Assoc<string>)
    requires MetadataFrom(req, c, indices, settings).failure.None?
    ensures SettingsOf(MetadataFrom(req, c, indices, settings).packets) == SettingsPackets(req, settings)
    decreases |settings|
  {
    if settings != [] {
      var init, last := settings[..|settings| - 1], settings[|settings| - 1];
      var prev := MetadataFrom(req, c, indices, init);
      var block := IndexMetadata(req, c, indices, last);
      assert prev.failure.None?;
      SettingsPacketsInOrder(req, c, indices, init);
      assert MetadataFrom(req, c, indices, settings).packets == prev.packets + block.packets;
      IndexMetadataSettings(req, c, indices, last);
      SettingsOfConcat(prev.packets, block.packets);
      assert SettingsPackets(req, settings) == SettingsPackets(req, init) + [SettingsPacket(req, last.0, last.1)];
    }
  }

  /** Every packet of the metadata phase is a metadata packet, and without aliases requested none is an alias packet. */
  lemma {:induction false} MetadataFromPackets(req: ExportRequest, c: Client, indices: IndexMap, settings: Assoc<string>)
    ensures AllMetadata(MetadataFrom(req, c, indices, settings).packets)
    ensures !req.withAliases ==> forall j :: 0 <= j < |MetadataFrom(req, c, indices, settings).packets| ==>
      MetadataFrom(req, c, indices, settings).packets[j].id != Some("_alias")
    decreases |settings|
  {
    if settings != [] {
      var init, last := settings[..|settings| - 1], settings[|settings| - 1];
      MetadataFromPackets(req, c, indices, init);
      IndexMetadataShape(req, c, indices, last);
      var prev := MetadataFrom(req, c, indices, init);
      var block := IndexMetadata(req, c, indices, last);
      if prev.failure.None? {
        var ps := prev.packets + block.packets;
        assert MetadataFrom(req, c, indices, settings).packets == ps;
        forall j | 0 <= j < |ps|
          ensures ps[j].field.None? && (!req.withAliases ==> ps[j].id != Some("_alias"))
        {
          if j >= |prev.packets| { assert ps[j] == block.packets[j - |prev.packets|]; }
        }
      }
    }
  }

  /** Without aliases requested, the metadata phase writes no alias packet. */
  lemma NoAliasPacketsUnlessRequested(req: ExportRequest, c: Client, indices: IndexMap)
    requires !req.withAliases
    ensures forall j :: 0 <= j < |MetadataEmission(req, c, indices).packets| ==>
      MetadataEmission(req, c, indices).packets[j].id != Some("_alias")
  {
    if c.settings(SettingsRequest(indices)).Ok? {
      MetadataFromPackets(req, c, indices, c.settings(SettingsRequest(indices)).value);
    }
  }

  lemma MetadataIsMetadata(req: ExportRequest, c: Client, indices: IndexMap)
    ensures AllMetadata(MetadataEmission(req, c, indices).packets)
  {
    if c.settings(SettingsRequest(indices)).Ok? {
      MetadataFromPackets(req, c, indices, c.settings(SettingsRequest(indices)).value);
    }
  }

  lemma MetadataFromSnoc(req: ExportRequest, c: Client, indices: IndexMap, settings: Assoc<string>, j: nat)
    requires j < |settings|
    ensures MetadataFrom(req, c, indices, settings[..j + 1]) ==
      MetadataFrom(req, c, indices, settings[..j]).Then(IndexMetadata(req, c, indices, settings[j]))
  {
    assert settings[..j + 1][..j] == settings[..j];
  }

  /** Once a lookup has thrown, the later settings entries write nothing. */
  lemma {:induction false} MetadataFromStops(req: ExportRequest, c: Client, indices: IndexMap, settings: Assoc<string>, n: nat)
    requires n <= |settings| && MetadataFrom(req, c, indices, settings[..n]).failure.Some?
    ensures MetadataFrom(req, c, indices, settings) == MetadataFrom(req, c, indices, settings[..n])
    decreases |settings| - n
  {
    if n < |settings| {
      assert settings[..n + 1][..n] == settings[..n];
      MetadataFromStops(req, c, indices, settings, n + 1);
    } else {
      assert settings[..n] == settings;
    }
  }

  /** An index whose mapping lookup, filtered by the map's types for it, returns one mapping type. */
  lemma OneTypeIndex(req: ExportRequest, c: Client, indices: IndexMap, index: string, settings: string,
                     t: string, m: string, als: Assoc<string>)
    requires c.mappings(index, TypeFilter(indices, index)) == Ok([(t, m)])
    requires req.withAliases ==> c.aliases(index) == Ok(als)
    ensures IndexMetadata(req, c, indices, (index, settings)) ==
      Emission([SettingsPacket(req, index, settings), MappingPacket(req, index, (t, m))]
               + (if req.withAliases then AliasPackets(req, index, als) else []), None)
  {
    assert MappingPackets(req, index, [(t, m)]) == [MappingPacket(req, index, (t, m))] by {
      assert [(t, m)][..0] == [];
    }
  }

  /**
    Two concrete indices idx1 and idx2, each with the one type t, exported from
    the index spec `_all`: a settings and a mapping packet for idx1, its alias
    packets when requested, then the same for idx2.
   */
  lemma TwoIndexExample(req: ExportRequest, c: Client, s1: string, s2: string, m1: string, m2: string,
                        a1: Assoc<string>, a2: Assoc<string>)
    requires c.settings({}) == Ok([("idx1", s1), ("idx2", s2)])
    requires c.mappings("idx1", None) == Ok([("t", m1)]) && c.mappings("idx2", None) == Ok([("t", m2)])
    requires req.withAliases ==> c.aliases("idx1") == Ok(a1) && c.aliases("idx2") == Ok(a2)
    ensures var e := MetadataEmission(req, c, map["_all" := {}]);
      && e.failure == None
      && e.packets ==
        [SettingsPacket(req, "idx1", s1), MappingPacket(req, "idx1", ("t", m1))]
        + (if req.withAliases then AliasPackets(req, "idx1", a1) else [])
        + [SettingsPacket(req, "idx2", s2), MappingPacket(req, "idx2", ("t", m2))]
        + (if req.withAliases then AliasPackets(req, "idx2", a2) else [])
  {
    var indices: IndexMap := map["_all" := {}];
    var settings := [("idx1", s1), ("idx2", s2)];
    assert SettingsRequest(indices) == {};
    assert MetadataEmission(req, c, indices) == MetadataFrom(req, c, indices, settings);
    assert TypeFilter(indices, "idx1") == None && TypeFilter(indices, "idx2") == None;
    OneTypeIndex(req, c, indices, "idx1", s1, "t", m1, a1);
    OneTypeIndex(req, c, indices, "idx2", s2, "t", m2, a2);
    var b1 := IndexMetadata(req, c, indices, ("idx1", s1));
    var b2 := IndexMetadata(req, c, indices, ("idx2", s2));
    assert MetadataFrom(req, c, indices, settings[..1]) == b1 by {
      assert settings[..1][..0] == [];
    }
    assert settings[..|settings| - 1] == settings[..1];
    assert MetadataFrom(req, c, indices, settings) == b1.Then(b2);
  }

  // ---------------------------------------------------------------------------
  // The loops that write the packets

  /** Lines 185-194. */
  method WriteMappings(session: ArchiveSession, req: ExportRequest, index: string, ms: Assoc<string>)
    requires session.Valid()
    modifies session`packets, session`packetCounter
    ensures session.Valid()
    ensures session.packets == old(session.packets) + MappingPackets(req, index, ms)
  {
    for j := 0 to |ms|
      invariant session.Valid()
      invariant session.packets == old(session.packets) + MappingPackets(req, index, ms[..j])
    {
      session.Write(MappingPacket(req, index, ms[j]));
      assert ms[..j + 1][..j] == ms[..j];
    }
    assert ms[..|ms|] == ms;
  }

  /** Lines 199-206. */
  method WriteAliases(session: ArchiveSession, req: ExportRequest, index: string, als: Assoc<string>)
    requires session.Valid()
    modifies session`packets, session`packetCounter
    ensures session.Valid()
    ensures session.packets == old(session.packets) + AliasPackets(req, index, als)
  {
    for j := 0 to |als|
      invariant session.Valid()
      invariant session.packets == old(session.packets) + AliasPackets(req, index, als[..j])
    {
      session.Write(AliasPacket(req, index, als[j]));
      assert als[..j + 1][..j] == als[..j];
    }
    assert als[..|als|] == als;
  }

  /** Lines 174-207: one index of the settings answer. */
  method WriteIndexMetadata(session: ArchiveSession, req: ExportRequest, c: Client, indices: IndexMap,
                            entry: (string, string)) returns (failure: Option<string>)
    requires session.Valid()
    modifies session`packets, session`packetCounter
    ensures session.Valid()
    ensures session.packets == old(session.packets) + IndexMetadata(req, c, indices, entry).packets
    ensures failure == IndexMetadata(req, c, indices, entry).failure
  {
    var index := entry.0;
    session.Write(SettingsPacket(req, index, entry.1));
    var types := if index in indices then Some(indices[index]) else None;
    var mappings := c.mappings(index, types);
    if mappings.Err? {
      return Some(mappings.error);
    }
    WriteMappings(session, req, index, mappings.value);
    if req.withAliases {
      var aliases := c.aliases(index);
      if aliases.Err? {
        return Some(aliases.error);
      }
      WriteAliases(session, req, index, aliases.value);
    }
    failure := None;
  }

  /** Lines 173-208: the loop over the indices of the settings answer. */
  method WriteMetadataFrom(session: ArchiveSession, req: ExportRequest, c: Client, indices: IndexMap,
                           settings: Assoc<string>) returns (failure: Option<string>)
    requires session.Valid()
    modifies session`packets, session`packetCounter
    ensures session.Valid()
    ensures session.packets == old(session.packets) + MetadataFrom(req, c, indices, settings).packets
    ensures failure == MetadataFrom(req, c, indices, settings).failure
  {
    var j := 0;
    failure := None;
    while j < |settings| && failure.None?
      invariant 0 <= j <= |settings|
      invariant session.Valid()
      invariant failure == MetadataFrom(req, c, indices, settings[..j]).failure
      invariant session.packets == old(session.packets) + MetadataFrom(req, c, indices, settings[..j]).packets
      decreases |settings| - j
    {
      MetadataFromSnoc(req, c, indices, settings, j);
      failure := WriteIndexMetadata(session, req, c, indices, settings[j]);
      j := j + 1;
    }
    if j < |settings| {
      MetadataFromStops(req, c, indices, settings, j);
    } else {
      assert settings[..j] == settings;
    }
  }

  /** Lines 166-208: the settings lookup and the loop over the indices it returns. */
  method WriteMetadata(session: ArchiveSession, req: ExportRequest, c: Client, indices: IndexMap)
    returns (failure: Option<string>)
    requires session.Valid()
    modifies session`packets, session`packetCounter
    ensures session.Valid()
    ensures session.packets == old(session.packets) + MetadataEmission(req, c, indices).packets
    ensures failure == MetadataEmission(req, c, indices).failure
  {
    var settingsIndices := indices.Keys - {"_all"};
    assert settingsIndices == SettingsRequest(indices);
    var answer := c.settings(settingsIndices);
    if answer.Err? {
      return Some(answer.error);
    }
    failure := WriteMetadataFrom(session, req, c, indices, answer.value);
  }
}
