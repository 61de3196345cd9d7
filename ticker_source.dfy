/**
 * Ticker lists: normalising a user-supplied list of symbols, and the
 * built-in default list.
 */
module TickerSource {
  import opened Text

  /** `t.upper().strip()` */
  function Normalize(t: string): string
  {
    Strip(Upper(t))
  }

  /** `load_tickers_from_list`: the non-empty entries, normalised, in order. */
  function LoadTickersFromList(tickers: seq<string>): seq<string>
  {
    if tickers == [] then []
    else
      var t := tickers[|tickers| - 1];
      LoadTickersFromList(tickers[..|tickers| - 1]) + (if t != "" then [Normalize(t)] else [])
  }

  /** The non-empty entries of a list, in order. */
  function NonEmpty(tickers: seq<string>): (kept: seq<string>)
    ensures |kept| == |tickers| - multiset(tickers)[""]
    ensures forall i :: 0 <= i < |kept| ==> kept[i] != ""
  {
    if tickers == [] then []
    else
      var n := |tickers| - 1;
      assert tickers == tickers[..n] + [tickers[n]];
      NonEmpty(tickers[..n]) + (if tickers[n] != "" then [tickers[n]] else [])
  }

  /**
   * The output has one entry per non-empty input, in order, each the
   * normalised input; empty strings are dropped and nothing else is.
   */
  lemma {:induction false} LoadNormalisesNonEmpty(tickers: seq<string>)
    ensures |LoadTickersFromList(tickers)| == |NonEmpty(tickers)| == |tickers| - multiset(tickers)[""]
    ensures forall i :: 0 <= i < |NonEmpty(tickers)| ==>
      LoadTickersFromList(tickers)[i] == Normalize(NonEmpty(tickers)[i])
  {
    if tickers != [] {
      var n := |tickers| - 1;
      LoadNormalisesNonEmpty(tickers[..n]);
    }
  }

  /** A string without surrounding space is its own strip. */
  lemma StrippedAlready(t: string)
    requires t == [] || (!IsSpace(t[0]) && !IsSpace(t[|t| - 1]))
    ensures Strip(t) == t
  {
    if t != [] {
      assert StripLeft(t) == t;
      assert StripRight(t) == t;
    }
  }

  /** Normalising a normalised ticker changes nothing. */
  lemma NormalizeIdempotent(t: string)
    ensures Normalize(Normalize(t)) == Normalize(t)
  {
    var u := Normalize(t);
    var uu := Upper(u);
    assert uu == u by {
      forall i | 0 <= i < |u|
        ensures uu[i] == u[i]
      {
        StripRightSubstring(StripLeft(Upper(t)), i);
      }
    }
    StrippedAlready(u);
  }

  /** Every character of the strip of an upper-cased string is not a lower-case letter. */
  lemma StripRightSubstring(s: string, i: int)
    requires forall k :: 0 <= k < |s| ==> !IsAsciiLower(s[k])
    requires 0 <= i < |StripRight(s)|
    ensures !IsAsciiLower(StripRight(s)[i])
  {
  }

  /** An entry made only of spaces is kept, and becomes the empty ticker. */
  lemma BlankEntrySurvivesAsEmpty(t: string)
    requires t != "" && forall i :: 0 <= i < |t| ==> IsSpace(t[i])
    ensures LoadTickersFromList([t]) == [""]
  {
    var u := Upper(t);
    assert forall i :: 0 <= i < |u| ==> IsSpace(u[i]);
    BlankStripsToEmpty(u);
    assert [t][..0] == [];
  }

  /** A string of spaces strips to the empty string. */
  lemma {:induction false} BlankStripsToEmpty(s: string)
    requires forall i :: 0 <= i < |s| ==> IsSpace(s[i])
    ensures Strip(s) == ""
  {
    if s != [] {
      BlankStripsToEmpty(s[1..]);
      assert StripLeft(s) == StripLeft(s[1..]);
    }
  }

  /** Normalising a list again changes nothing unless the first pass produced an empty ticker. */
  lemma {:induction false} LoadIdempotent(tickers: seq<string>)
    requires "" !in LoadTickersFromList(tickers)
    ensures LoadTickersFromList(LoadTickersFromList(tickers)) == LoadTickersFromList(tickers)
  {
    if tickers != [] {
      var n := |tickers| - 1;
      var prefix := LoadTickersFromList(tickers[..n]);
      var out := LoadTickersFromList(tickers);
      if tickers[n] == "" {
        assert out == prefix;
        LoadIdempotent(tickers[..n]);
      } else {
        var t := Normalize(tickers[n]);
        assert out == prefix + [t];
        assert "" !in prefix && t != "";
        LoadIdempotent(tickers[..n]);
        assert out[..|out| - 1] == prefix;
        NormalizeIdempotent(tickers[n]);
        assert LoadTickersFromList(out) == LoadTickersFromList(prefix) + [Normalize(t)];
      }
    }
  }

  /** `get_default_tickers` */
  const DefaultTickers: seq<string> :=
    ["HIMS", "RKLB", "PL", "SMCI", "NVDA",
     "AAPL", "MSFT", "GOOGL", "AMZN", "META",
     "PLTR", "SOFI", "HOOD", "IONQ", "AFRM"]

  /** The default list holds fifteen distinct, non-empty symbols. */
  lemma DefaultTickersDistinct()
    ensures |DefaultTickers| == 15
    ensures forall i, j :: 0 <= i < j < |DefaultTickers| ==> DefaultTickers[i] != DefaultTickers[j]
    ensures "" !in DefaultTickers
  {
  }
}
