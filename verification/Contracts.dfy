/** `backtest/service.py`: instrument codes and the contract multiplier table. Codes are ASCII. */
module Contracts {
  import opened Wrappers
  import opened Sequences

  function UpperChar(c: char): char {
    if 'a' <= c <= 'z' then (c as int - 32) as char else c
  }

  function Upper(s: string): (r: string)
    ensures |r| == |s|
  {
    if s == [] then [] else [UpperChar(s[0])] + Upper(s[1..])
  }

  function Letters(s: string): string {
    if s == [] then []
    else if 'a' <= s[0] <= 'z' || 'A' <= s[0] <= 'Z' then [s[0]] + Letters(s[1..])
    else Letters(s[1..])
  }

  /** The text before the first dot, or the whole text. */
  function BeforeDot(s: string): string {
    if s == [] || s[0] == '.' then [] else [s[0]] + BeforeDot(s[1..])
  }

  function AfterDot(s: string): string {
    if s == [] then [] else if s[0] == '.' then s[1..] else AfterDot(s[1..])
  }

  function VenueOf(suffix: string): Option<string> {
    match suffix
    case "SHF" => Some("SHFE")
    case "INE" => Some("INE")
    case "DCE" => Some("DCE")
    case "CZC" => Some("CZCE")
    case "CZCE" => Some("CZCE")
    case "GFE" => Some("GFEX")
    case "GFEX" => Some("GFEX")
    case _ => None
  }

  /** The venue of `_split_instrument`; `None` where it raises. */
  function Venue(instrumentId: string): Option<string> {
    if BeforeDot(instrumentId) == [] then None else VenueOf(Upper(AfterDot(instrumentId)))
  }

  /** The table's multiplier for the underlying, RB's for an unlisted one. */
  function Multiplier(instrumentId: string): (m: int)
    ensures m > 0
  {
    match Upper(Letters(BeforeDot(instrumentId)))
    case "AU" => 1000
    case "SA" => 20
    case _ => 10
  }

  /** A rebar contract has ten tonnes, and trades at the Shanghai exchange. */
  lemma {:induction false} RebarMultiplier(i: string)
    requires i == "RB2610.SHF"
    ensures Multiplier(i) == 10 && Venue(i) == Some("SHFE")
  {
    SplitAtDot("RB2610", "SHF");
    assert "RB2610" + "." + "SHF" == i;
    assert Letters("RB2610") == "RB" && Upper("RB") == "RB" && Upper("SHF") == "SHF";
  }

  lemma {:induction false} SplitAtDot(symbol: string, suffix: string)
    requires '.' !in symbol
    ensures BeforeDot(symbol + "." + suffix) == symbol && AfterDot(symbol + "." + suffix) == suffix
  {
    if symbol != [] {
      SplitAtDot(symbol[1..], suffix);
      assert (symbol + "." + suffix)[1..] == symbol[1..] + "." + suffix;
      assert symbol == [symbol[0]] + symbol[1..];
    }
  }

  /** Letters are folded to upper case, other characters stay. */
  lemma {:induction false} UpperMeans(s: string, i: nat)
    requires i < |s|
    ensures Upper(s)[i] as int == if 97 <= s[i] as int <= 122 then s[i] as int - 32 else s[i] as int
  {
    if i > 0 {
      UpperMeans(s[1..], i - 1);
    }
  }

  /** The underlying keeps the letters of the symbol. */
  lemma {:induction false} LettersMeans(s: string)
    ensures Letters(s) == Filter(s, (c: char) => 65 <= c as int <= 90 || 97 <= c as int <= 122)
  {
    if s != [] {
      LettersMeans(s[1..]);
      assert s == [s[0]] + s[1..];
      FilterCons(s[0], s[1..], (c: char) => 65 <= c as int <= 90 || 97 <= c as int <= 122);
    }
  }

  /** The suffixes that name a venue. */
  predicate NamesVenue(suffix: string, venue: string) {
    || (suffix == "SHF" && venue == "SHFE") || (suffix == "INE" && venue == "INE") || (suffix == "DCE" && venue == "DCE")
    || (suffix == "CZC" && venue == "CZCE") || (suffix == "CZCE" && venue == "CZCE")
    || (suffix == "GFE" && venue == "GFEX") || (suffix == "GFEX" && venue == "GFEX")
  }

  /** A code has a venue iff its symbol is not empty and its suffix, in upper case, names it. */
  lemma {:induction false} VenueIff(symbol: string, suffix: string, venue: string)
    requires '.' !in symbol
    ensures Venue(symbol + "." + suffix) == Some(venue) <==> symbol != "" && NamesVenue(Upper(suffix), venue)
  {
    SplitAtDot(symbol, suffix);
    VenueOfIff(Upper(suffix), venue);
  }

  lemma {:induction false} VenueOfIff(suffix: string, venue: string)
    ensures VenueOf(suffix) == Some(venue) <==> NamesVenue(suffix, venue)
  {
  }

  /** A code without a dot has none. */
  lemma {:induction false} NoDotNoVenue(code: string)
    requires '.' !in code
    ensures Venue(code).None?
  {
    if code != [] {
      NoSuffix(code);
    }
  }

  lemma {:induction false} NoSuffix(code: string)
    requires '.' !in code
    ensures AfterDot(code) == ""
  {
    if code != [] {
      NoSuffix(code[1..]);
    }
  }

  /** Gold is traded in lots of 1000 grams, soda ash in lots of 20 tonnes; everything else counts as ten. */
  lemma {:induction false} MultiplierIff(symbol: string, suffix: string)
    requires '.' !in symbol
    ensures Multiplier(symbol + "." + suffix) ==
              if Upper(Letters(symbol)) == "AU" then 1000 else if Upper(Letters(symbol)) == "SA" then 20 else 10
  {
    SplitAtDot(symbol, suffix);
  }
}
