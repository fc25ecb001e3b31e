/** A slice segment header written for parameter sets without reference picture sets of their own is
    parsed back, whatever follows it. */
module HevcSliceParsing {
  import opened Bits
  import opened Codes
  import opened BitReading
  import opened HevcRps
  import opened HevcSlice

  /** The reference picture set is one that the parser under a generated SPS can meet. */
  ghost predicate ParseableBody(c: Context, b: Body, total: nat) {
    && ConformingBody(c, b, total)
    && Generated(c.rps) && b.rps.st.Explicit? && b.rps.ltFromSps == []
    && total == TotalCurr(b.rps)
  }

  lemma FlagParses(present: bool, absent: bool, value: bool, rest: seq<bool>)
    requires !present ==> value == absent
    ensures ReadFlag(present, absent, Flag(present, value) + rest) == Read(value, rest)
  {
    if !present {
      assert [] + rest == rest;
    }
  }

  lemma TypeParses(c: Context, b: Body, rest: seq<bool>)
    requires |b.reserved| == c.extraBits && b.sliceType <= 2 && (!c.outputFlagPresent ==> b.picOutput)
    ensures ReadType(c, TypeCode(c, b) + rest) == Read((b.reserved, b.sliceType, b.picOutput), rest)
  {
    hide UeCode, ReadUe;
    var output := Flag(c.outputFlagPresent, b.picOutput);
    var s := TypeCode(c, b) + rest;
    Peel3(b.reserved, UeCode(b.sliceType), output, rest);
    assert s[..c.extraBits] == b.reserved && s[c.extraBits..] == UeCode(b.sliceType) + (output + rest);
    UeRoundTrip(b.sliceType, output + rest);
    FlagParses(c.outputFlagPresent, true, b.picOutput, rest);
  }

  lemma TimingParses(c: Context, b: Body, total: nat, rest: seq<bool>)
    requires ParseableBody(c, b, total)
    ensures ReadTiming(c, TimingCode(c, b) + rest) == Read((b.pocLsb, b.rps, b.tmvp), rest)
  {
    if c.idr {
      assert [] + rest == rest;
    } else {
      var lsb, rps, tmvp := Fixed(b.pocLsb, c.rps.pocBits), RpsCode(c.rps, b.rps), Flag(c.tmvp, b.tmvp);
      FixedRoundTrip(b.pocLsb, c.rps.pocBits, rps + (tmvp + rest));
      RpsRoundTrip(c.rps, b.rps, tmvp + rest);
      hide Fixed, ReadFixed, RpsCode, ReadRps, Pow2;
      Peel3(lsb, rps, tmvp, rest);
      FlagParses(c.tmvp, false, b.tmvp, rest);
    }
  }

  lemma CountsParse(b: Body, rest: seq<bool>)
    requires ConformingCounts(b) && b.sliceType != I_SLICE
    ensures ReadCounts(CountsCode(b) + rest, b.sliceType) == Read(b.counts, rest)
  {
    hide UeCode, ReadUe;
    match b.counts
    case Inherited =>
    case Override(minus0, minus1) =>
      if b.sliceType == B_SLICE {
        Peel3([true], UeCode(minus0), UeCode(minus1), rest);
        UeRoundTrip(minus0, UeCode(minus1) + rest);
        UeRoundTrip(minus1, rest);
      } else {
        Associative([true], UeCode(minus0), rest);
        UeRoundTrip(minus0, rest);
      }
  }

  lemma {:induction false} EntriesParse(es: seq<nat>, bits: nat, rest: seq<bool>)
    requires forall i :: 0 <= i < |es| ==> es[i] < Pow2(bits)
    ensures ReadEntries(EntriesCode(es, bits) + rest, bits, |es|) == Read(es, rest)
  {
    if es == [] {
      assert EntriesCode(es, bits) + rest == rest;
    } else {
      FixedRoundTrip(es[0], bits, EntriesCode(es[1..], bits) + rest);
      EntriesParse(es[1..], bits, rest);
      hide Fixed, ReadFixed, Pow2;
      Associative(Fixed(es[0], bits), EntriesCode(es[1..], bits), rest);
      assert es == [es[0]] + es[1..];
    }
  }

  lemma ModParses(c: Context, m: Modification, total: nat, active: nat, used: bool, rest: seq<bool>)
    requires ConformingMod(c, m, total, active, used)
    ensures ReadMod(c, ModCode(c, total, m) + rest, total, active) == Read(m, rest)
  {
    if !c.modification || total <= 1 {
      assert [] + rest == rest;
    } else if m.Entries? {
      EntriesParse(m.es, CeilLog2(total), rest);
      hide EntriesCode, ReadEntries, CeilLog2, Pow2;
      Associative([true], EntriesCode(m.es, CeilLog2(total)), rest);
    }
  }

  lemma ModsParse(c: Context, b: Body, total: nat, rest: seq<bool>)
    requires ConformingBody(c, b, total) && b.sliceType != I_SLICE
    ensures ReadMods(c, ModsCode(c, b, total) + rest, b.sliceType, total, b.counts) == Read((b.mod0, b.mod1), rest)
  {
    var tail := if b.sliceType == B_SLICE then ModCode(c, total, b.mod1) + rest else rest;
    ModParses(c, b.mod0, total, Active(c, b.counts, 0), true, tail);
    ModParses(c, b.mod1, total, Active(c, b.counts, 1), b.sliceType == B_SLICE, rest);
    hide ModCode, ReadMod;
    if b.sliceType == B_SLICE {
      Associative(ModCode(c, total, b.mod0), ModCode(c, total, b.mod1), rest);
    }
  }

  lemma ListsParse(c: Context, b: Body, total: nat, rest: seq<bool>)
    requires ConformingBody(c, b, total)
    ensures ReadLists(c, ListsCode(c, b, total) + rest, b.sliceType, total) == Read((b.counts, b.mod0, b.mod1), rest)
  {
    if b.sliceType == I_SLICE {
      assert [] + rest == rest;
    } else {
      ModsParse(c, b, total, rest);
      CountsParse(b, ModsCode(c, b, total) + rest);
      hide ModsCode, ReadMods, CountsCode, ReadCounts, ConformingBody;
      Associative(CountsCode(b), ModsCode(c, b, total), rest);
    }
  }

  lemma SaoParses(c: Context, b: Body, rest: seq<bool>)
    requires !c.sao ==> !b.saoLuma && !b.saoChroma
    ensures ReadSao(c, SaoCode(c, b) + rest) == Read((b.saoLuma, b.saoChroma), rest)
  {
    if c.sao {
      assert SaoCode(c, b) + rest == [b.saoLuma] + ([b.saoChroma] + rest);
    } else {
      assert [] + rest == rest;
    }
  }

  lemma BodyParses(c: Context, b: Body, total: nat, rest: seq<bool>)
    requires ParseableBody(c, b, total)
    ensures ReadBody(c, BodyCode(c, b, total) + rest) == Read(b, rest)
  {
    Peel4(TypeCode(c, b), TimingCode(c, b), SaoCode(c, b), ListsCode(c, b, total), rest);
    TypeParses(c, b, TimingCode(c, b) + (SaoCode(c, b) + (ListsCode(c, b, total) + rest)));
    TimingParses(c, b, total, SaoCode(c, b) + (ListsCode(c, b, total) + rest));
    SaoParses(c, b, ListsCode(c, b, total) + rest);
    ListsParse(c, b, total, rest);
    hide TypeCode, ReadType, TimingCode, ReadTiming, SaoCode, ReadSao, ListsCode, ReadLists, ConformingRps, TotalCurr,
         Pow2;
  }

  lemma AddressParses(c: Context, h: Header, rest: seq<bool>)
    requires (h.first ==> !h.dependent && h.address == 0) && (!c.dependentEnabled ==> !h.dependent)
    requires h.address < Pow2(c.addressBits)
    ensures ReadAddress(c, AddressCode(c, h) + rest, h.first) == Read((h.dependent, h.address), rest)
  {
    if h.first {
      assert [] + rest == rest;
    } else {
      FixedRoundTrip(h.address, c.addressBits, rest);
      FlagParses(c.dependentEnabled, false, h.dependent, Fixed(h.address, c.addressBits) + rest);
      Associative(Flag(c.dependentEnabled, h.dependent), Fixed(h.address, c.addressBits), rest);
      hide Fixed, ReadFixed, Pow2, Flag, ReadFlag;
    }
  }

  lemma HeaderLayout(c: Context, h: Header, total: nat, rest: seq<bool>)
    requires h.dependent <==> h.body.NoBody?
    ensures HeaderCode(c, h, total) + rest
         == [h.first] + (Flag(c.irap, h.noOutputOfPriorPics) + (UeCode(h.ppsId) + (AddressCode(c, h)
            + if h.dependent then rest else BodyCode(c, h.body.body, total) + rest)))
  {
    hide BodyCode, AddressCode, UeCode, Flag;
    var after := if h.dependent then rest else BodyCode(c, h.body.body, total) + rest;
    if h.dependent {
      assert PreambleCode(c, h) + [] == PreambleCode(c, h);
    } else {
      Associative(PreambleCode(c, h), BodyCode(c, h.body.body, total), rest);
    }
    Peel4([h.first], Flag(c.irap, h.noOutputOfPriorPics), UeCode(h.ppsId), AddressCode(c, h), after);
  }

  /** Parsing returns the header and leaves exactly what follows it. */
  lemma HeaderParses(c: Context, h: Header, total: nat, rest: seq<bool>)
    requires ConformingHeader(c, h, total)
    requires h.body.SomeBody? ==> ParseableBody(c, h.body.body, total)
    ensures ReadHeader(c, HeaderCode(c, h, total) + rest) == Read(h, rest)
  {
    hide HeaderCode, BodyCode, ReadBody, AddressCode, ReadAddress, UeCode, ReadUe, ConformingBody, Pow2, Flag, ReadFlag;
    var after := if h.dependent then rest else BodyCode(c, h.body.body, total) + rest;
    HeaderLayout(c, h, total, rest);
    if !h.dependent {
      BodyParses(c, h.body.body, total, rest);
    }
    AddressParses(c, h, after);
    UeRoundTrip(h.ppsId, AddressCode(c, h) + after);
    FlagParses(c.irap, false, h.noOutputOfPriorPics, UeCode(h.ppsId) + (AddressCode(c, h) + after));
  }
}
