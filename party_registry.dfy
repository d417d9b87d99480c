/**
  The party and coalition registry: constant tables, in declaration order, of
  the parties shown on the site and of the coalitions that group them.
 */
module PartyRegistry {

  /** Display settings of one party. */
  datatype PartyInfo = PartyInfo(name: string, color: string, showInGraph: bool)

  /** A coalition: its colour and its member parties (by abbreviation). */
  datatype Coalition = Coalition(color: string, parties: seq<string>)

  /** `PARTY_CONFIG`: abbreviation -> settings, in dictionary order. */
  const PartyConfig: seq<(string, PartyInfo)> := [
    ("FDI", PartyInfo("Fratelli d'Italia", "#0066CC", true)),
    ("PD", PartyInfo("Partito Democratico", "#FF0000", true)),
    ("M5S", PartyInfo("Movimento 5 Stelle", "#FFD700", true)),
    ("FI", PartyInfo("Forza Italia", "#00BFFF", true)),
    ("LEGA", PartyInfo("Lega", "#004225", true)),
    ("AVS", PartyInfo("Alleanza Verdi Sinistra", "#00B050", true)),
    ("+Europa", PartyInfo("+Europa", "#800080", false)),
    ("Azione", PartyInfo("Azione", "#FFA500", false)),
    ("Italia Viva", PartyInfo("Italia Viva", "#800000", false)),
    ("Altri", PartyInfo("Altri", "#808080", false))
  ]

  /** `COALITION_CONFIG`: coalition -> colour and members, in dictionary order. */
  const CoalitionConfig: seq<(string, Coalition)> := [
    ("Centrosinistra", Coalition("#FF0000", ["PD", "AVS", "+Europa"])),
    ("Movimento 5 Stelle", Coalition("#FFD700", ["M5S"])),
    ("Terzo Polo", Coalition("#FF69B4", ["Azione", "Italia Viva"])),
    ("Centrodestra", Coalition("#00BFFF", ["FDI", "LEGA", "FI"])),
    ("Altri", Coalition("#808080", ["Altri"]))
  ]

  /** The display-name -> abbreviation mapping used when smoothing (moving_average.py). */
  const NameToAbbreviation: seq<(string, string)> := [
    ("Fratelli d'Italia", "FDI"),
    ("Partito Democratico", "PD"),
    ("Movimento 5 Stelle", "M5S"),
    ("Forza Italia", "FI"),
    ("Lega", "LEGA"),
    ("Alleanza Verdi Sinistra", "AVS"),
    ("+Europa", "+Europa"),
    ("Azione", "Azione"),
    ("Italia Viva", "Italia Viva"),
    ("Altri", "Altri")
  ]

  /** The anchor parties a poll row must report to be kept. */
  const DemocraticParty := "Partito Democratico"
  const BrothersOfItaly := "Fratelli d'Italia"

  /** The keys of a configuration table, in order. */
  function Keys(config: seq<(string, PartyInfo)>): (r: seq<string>)
    ensures |r| == |config|
    ensures forall k :: 0 <= k < |r| ==> r[k] == config[k].0
  {
    seq(|config|, k requires 0 <= k < |config| => config[k].0)
  }

  /** The display names of a configuration table, in order. */
  function Names(config: seq<(string, PartyInfo)>): (r: seq<string>)
    ensures |r| == |config|
    ensures forall k :: 0 <= k < |r| ==> r[k] == config[k].1.name
  {
    seq(|config|, k requires 0 <= k < |config| => config[k].1.name)
  }

  predicate Distinct(s: seq<string>)
  {
    forall i, j :: 0 <= i < j < |s| ==> s[i] != s[j]
  }

  /** How many coalitions list `abbr` among their members. */
  function MembershipCount(abbr: string, coalitions: seq<(string, Coalition)>): nat
  {
    if coalitions == [] then 0
    else MembershipCount(abbr, coalitions[1..]) + (if abbr in coalitions[0].1.parties then 1 else 0)
  }

  /** The abbreviation the smoothing step gives to a display name, if it knows it. */
  function AbbreviationOf(name: string, mapping: seq<(string, string)>): (r: string)
    ensures (forall j :: 0 <= j < |mapping| ==> mapping[j].0 != name) ==> r == name
    ensures (exists j :: 0 <= j < |mapping| && mapping[j].0 == name) ==>
      exists j :: 0 <= j < |mapping| && mapping[j] == (name, r) && forall i :: 0 <= i < j ==> mapping[i].0 != name
  {
    if mapping == [] then name
    else if mapping[0].0 == name then mapping[0].1
    else AbbreviationOf(name, mapping[1..])
  }

  /** Dictionary keys are unique. */
  lemma AbbreviationsDistinct()
    ensures Distinct(Keys(PartyConfig))
  {
    var a := Keys(PartyConfig);
    assert a == ["FDI", "PD", "M5S", "FI", "LEGA", "AVS", "+Europa", "Azione", "Italia Viva", "Altri"];
    forall i, j | 0 <= i < j < |a| ensures a[i] != a[j] {
      if |a[i]| == |a[j]| { assert a[i][0] != a[j][0]; }
    }
  }

  /** No two parties share a display name. */
  lemma DisplayNamesDistinct()
    ensures Distinct(Names(PartyConfig))
  {
    var n := Names(PartyConfig);
    assert n == ["Fratelli d'Italia", "Partito Democratico", "Movimento 5 Stelle", "Forza Italia", "Lega",
                 "Alleanza Verdi Sinistra", "+Europa", "Azione", "Italia Viva", "Altri"];
    forall i, j | 0 <= i < j < |n| ensures n[i] != n[j] {
      assert |n[i]| != |n[j]|;
    }
  }

  /** Every party named by a coalition is a key of the party configuration. */
  lemma CoalitionMembersAreParties()
    ensures forall c, p :: 0 <= c < |CoalitionConfig| && p in CoalitionConfig[c].1.parties ==> p in Keys(PartyConfig)
  {
    var a := Keys(PartyConfig);
    assert a == ["FDI", "PD", "M5S", "FI", "LEGA", "AVS", "+Europa", "Azione", "Italia Viva", "Altri"];
  }

  /** Counting memberships over a suffix: the first coalition's share plus the rest's. */
  lemma MembershipCountStep(abbr: string, coalitions: seq<(string, Coalition)>, i: nat)
    requires i < |coalitions|
    ensures MembershipCount(abbr, coalitions[i..])
         == (if abbr in coalitions[i].1.parties then 1 else 0) + MembershipCount(abbr, coalitions[i + 1..])
  {
    assert coalitions[i..][1..] == coalitions[i + 1..];
  }

  /** The membership count over five coalitions, written out. */
  lemma MembershipCountOfFive(abbr: string, c: seq<(string, Coalition)>)
    requires |c| == 5
    ensures MembershipCount(abbr, c)
         == (if abbr in c[0].1.parties then 1 else 0) + (if abbr in c[1].1.parties then 1 else 0)
          + (if abbr in c[2].1.parties then 1 else 0) + (if abbr in c[3].1.parties then 1 else 0)
          + (if abbr in c[4].1.parties then 1 else 0)
  {
    assert c[0..] == c;
    MembershipCountStep(abbr, c, 0);
    MembershipCountStep(abbr, c, 1);
    MembershipCountStep(abbr, c, 2);
    MembershipCountStep(abbr, c, 3);
    MembershipCountStep(abbr, c, 4);
    assert c[5..] == [];
  }

  /** The coalitions' member lists. */
  lemma MemberLists()
    ensures |CoalitionConfig| == 5
    ensures CoalitionConfig[0].1.parties == ["PD", "AVS", "+Europa"]
    ensures CoalitionConfig[1].1.parties == ["M5S"]
    ensures CoalitionConfig[2].1.parties == ["Azione", "Italia Viva"]
    ensures CoalitionConfig[3].1.parties == ["FDI", "LEGA", "FI"]
    ensures CoalitionConfig[4].1.parties == ["Altri"]
  {
  }

  /** A member of Centrosinistra is listed by that coalition only. */
  lemma CentreLeftMemberCountedOnce(p: string)
    requires p in CoalitionConfig[0].1.parties
    ensures MembershipCount(p, CoalitionConfig) == 1
  {
    MemberLists();
    MembershipCountOfFive(p, CoalitionConfig);
  }

  /** A member of Movimento 5 Stelle is listed by that coalition only. */
  lemma FiveStarMemberCountedOnce(p: string)
    requires p in CoalitionConfig[1].1.parties
    ensures MembershipCount(p, CoalitionConfig) == 1
  {
    MemberLists();
    MembershipCountOfFive(p, CoalitionConfig);
  }

  /** A member of Terzo Polo is listed by that coalition only. */
  lemma ThirdPoleMemberCountedOnce(p: string)
    requires p in CoalitionConfig[2].1.parties
    ensures MembershipCount(p, CoalitionConfig) == 1
  {
    MemberLists();
    MembershipCountOfFive(p, CoalitionConfig);
  }

  /** A member of Centrodestra is listed by that coalition only. */
  lemma CentreRightMemberCountedOnce(p: string)
    requires p in CoalitionConfig[3].1.parties
    ensures MembershipCount(p, CoalitionConfig) == 1
  {
    MemberLists();
    assert |p| > 0 && (p[0] == 'F' || p[0] == 'L');
    MembershipCountOfFive(p, CoalitionConfig);
  }

  /** A member of Altri is listed by that coalition only. */
  lemma OthersMemberCountedOnce(p: string)
    requires p in CoalitionConfig[4].1.parties
    ensures MembershipCount(p, CoalitionConfig) == 1
  {
    MemberLists();
    MembershipCountOfFive(p, CoalitionConfig);
  }

  /** Every party belongs to exactly one coalition: the coalitions partition the parties. */
  lemma CoalitionsPartitionParties()
    ensures forall p :: p in Keys(PartyConfig) ==> MembershipCount(p, CoalitionConfig) == 1
  {
    var a := Keys(PartyConfig);
    assert a == ["FDI", "PD", "M5S", "FI", "LEGA", "AVS", "+Europa", "Azione", "Italia Viva", "Altri"];
    MemberLists();
    forall p | p in a ensures MembershipCount(p, CoalitionConfig) == 1 {
      if p in CoalitionConfig[0].1.parties {
        CentreLeftMemberCountedOnce(p);
      } else if p in CoalitionConfig[1].1.parties {
        FiveStarMemberCountedOnce(p);
      } else if p in CoalitionConfig[2].1.parties {
        ThirdPoleMemberCountedOnce(p);
      } else if p in CoalitionConfig[3].1.parties {
        CentreRightMemberCountedOnce(p);
      } else {
        OthersMemberCountedOnce(p);
      }
    }
  }

  /** The configuration entries that are drawn, in order. */
  function OnlyShown(config: seq<(string, PartyInfo)>): (r: seq<(string, PartyInfo)>)
    ensures |r| <= |config|
  {
    if config == [] then []
    else
      var n := |config| - 1;
      OnlyShown(config[..n]) + (if config[n].1.showInGraph then [config[n]] else [])
  }

  /** Exactly the entries marked to be drawn are kept. */
  lemma {:induction false} OnlyShownMembers(config: seq<(string, PartyInfo)>)
    ensures forall e :: e in OnlyShown(config) <==> e in config && e.1.showInGraph
  {
    if config != [] {
      var n := |config| - 1;
      OnlyShownMembers(config[..n]);
      assert forall e :: e in config <==> e in config[..n] || e == config[n] by {
        assert config == config[..n] + [config[n]];
      }
    }
  }

  lemma KeysSnoc(a: seq<(string, PartyInfo)>, e: (string, PartyInfo))
    ensures Keys(a + [e]) == Keys(a) + [e.0]
  {
    var extended := a + [e];
    var left := Keys(extended);
    var right := Keys(a) + [e.0];
    forall k | 0 <= k < |left| ensures left[k] == right[k] {
      if k < |a| {
        assert extended[k] == a[k];
      }
    }
  }

  /** The drawn keys grow by the last entry's key exactly when that entry is drawn. */
  lemma ShownKeysStep(config: seq<(string, PartyInfo)>)
    requires config != []
    ensures var n := |config| - 1;
      Keys(OnlyShown(config))
      == Keys(OnlyShown(config[..n])) + (if config[n].1.showInGraph then [config[n].0] else [])
  {
    var n := |config| - 1;
    var shown := OnlyShown(config[..n]);
    if config[n].1.showInGraph {
      assert Keys(OnlyShown(config)) == Keys(shown) + [config[n].0] by {
        assert OnlyShown(config) == shown + [config[n]];
        KeysSnoc(shown, config[n]);
      }
    } else {
      assert Keys(OnlyShown(config)) == Keys(shown) by {
        assert OnlyShown(config) == shown;
      }
      assert Keys(shown) + [] == Keys(shown);
    }
  }

  /** When every entry is drawn, all of them are kept, in order. */
  lemma {:induction false} AllShownKept(config: seq<(string, PartyInfo)>)
    requires forall k :: 0 <= k < |config| ==> config[k].1.showInGraph
    ensures OnlyShown(config) == config
  {
    if config != [] {
      var n := |config| - 1;
      AllShownKept(config[..n]);
      assert config[..n] + [config[n]] == config;
    }
  }

  /** Entries hidden from the chart after position `k` contribute nothing. */
  lemma {:induction false} HiddenTailDropped(config: seq<(string, PartyInfo)>, k: nat)
    requires k <= |config|
    requires forall j :: k <= j < |config| ==> !config[j].1.showInGraph
    ensures OnlyShown(config) == OnlyShown(config[..k])
  {
    if |config| > k {
      var n := |config| - 1;
      HiddenTailDropped(config[..n], k);
      assert config[..n][..k] == config[..k];
    } else {
      assert config[..k] == config;
    }
  }

  /** The first six parties are drawn and the last four hidden. */
  lemma ShowFlags()
    ensures |PartyConfig| == 10
    ensures forall k :: 0 <= k < 6 ==> PartyConfig[k].1.showInGraph
    ensures forall k :: 6 <= k < 10 ==> !PartyConfig[k].1.showInGraph
    ensures var main := ["FDI", "PD", "M5S", "FI", "LEGA", "AVS"];
      forall k :: 0 <= k < 6 ==> main[k] == PartyConfig[k].0
  {
  }

  /** Exactly the first six parties are drawn, FDI to AVS; the other four are not. */
  lemma ShownParties()
    ensures OnlyShown(PartyConfig) == PartyConfig[..6]
    ensures Keys(OnlyShown(PartyConfig)) == ["FDI", "PD", "M5S", "FI", "LEGA", "AVS"]
  {
    ShowFlags();
    AllShownKept(PartyConfig[..6]);
    HiddenTailDropped(PartyConfig, 6);
  }

  /** With distinct names, the lookup finds the abbreviation paired with a listed name. */
  lemma {:induction false} AbbreviationOfListed(mapping: seq<(string, string)>, k: nat)
    requires k < |mapping|
    requires forall i, j :: 0 <= i < j < |mapping| ==> mapping[i].0 != mapping[j].0
    ensures AbbreviationOf(mapping[k].0, mapping) == mapping[k].1
  {
    if k > 0 {
      assert mapping[0].0 != mapping[k].0;
      AbbreviationOfListed(mapping[1..], k - 1);
    }
  }

  /** The smoothing step's mapping pairs each configured display name with its key, in order. */
  lemma NameMappingPairs()
    ensures |NameToAbbreviation| == |PartyConfig|
    ensures forall k :: 0 <= k < |PartyConfig| ==>
      NameToAbbreviation[k] == (PartyConfig[k].1.name, PartyConfig[k].0)
  {
  }

  /** The mapping lists no display name twice. */
  lemma NameMappingNamesDistinct()
    ensures forall i, j :: 0 <= i < j < |NameToAbbreviation| ==> NameToAbbreviation[i].0 != NameToAbbreviation[j].0
  {
    NameMappingPairs();
    DisplayNamesDistinct();
    var n := Names(PartyConfig);
    forall i, j | 0 <= i < j < |NameToAbbreviation|
      ensures NameToAbbreviation[i].0 != NameToAbbreviation[j].0
    {
      assert NameToAbbreviation[i].0 == n[i] && NameToAbbreviation[j].0 == n[j];
    }
  }

  /** The smoothing step's name -> abbreviation map is the inverse of the configuration. */
  lemma NameMappingInvertsConfig()
    ensures |NameToAbbreviation| == |PartyConfig|
    ensures forall k :: 0 <= k < |PartyConfig| ==>
      AbbreviationOf(PartyConfig[k].1.name, NameToAbbreviation) == PartyConfig[k].0
  {
    NameMappingPairs();
    NameMappingNamesDistinct();
    forall k | 0 <= k < |PartyConfig|
      ensures AbbreviationOf(PartyConfig[k].1.name, NameToAbbreviation) == PartyConfig[k].0
    {
      AbbreviationOfListed(NameToAbbreviation, k);
    }
  }

  /** Coalitions are declared in this order. */
  lemma CoalitionDeclarationOrder()
    ensures |CoalitionConfig| == 5
    ensures CoalitionConfig[0].0 == "Centrosinistra" && CoalitionConfig[1].0 == "Movimento 5 Stelle"
    ensures CoalitionConfig[2].0 == "Terzo Polo" && CoalitionConfig[3].0 == "Centrodestra"
    ensures CoalitionConfig[4].0 == "Altri"
  {
  }

  /** The filter's anchor parties are display names of configured parties. */
  lemma AnchorsAreConfiguredNames()
    ensures DemocraticParty in Names(PartyConfig) && BrothersOfItaly in Names(PartyConfig)
  {
    assert Names(PartyConfig)[0] == BrothersOfItaly;
    assert Names(PartyConfig)[1] == DemocraticParty;
  }
}
