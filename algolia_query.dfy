/**
 * The query string of the harmonic search: a filter that ORs one
 * `cof_key:"<notation>"` clause per compatible key, URL-encoded after
 * `filter=`, preceded by `query=<encoded text>&` when there is free text.
 *
 * The partner is the form-urlencoded parser of the WHATWG URL Standard
 * (section 5.1): split on `&`, drop empty pieces, split each piece at its
 * first `=`, decode name and value. Parsing a built query string gives back
 * exactly the `query` and `filter` pairs.
 */
module AlgoliaQuery {
  import opened SongKeys
  import opened UrlEncoding

  // ---------------------------------------------------------------------------
  // Filter value
  // ---------------------------------------------------------------------------

  /** `cof_key:"<notation>"`. */
  function FilterClause(k: SongKey): string
  {
    "cof_key:\"" + ToCircleOfFifths(k) + "\""
  }

  /** A concrete key is matched by its Camelot label; `Unknown` by the word itself. */
  lemma {:induction false} FilterClauseIsCamelot(k: SongKey)
    ensures k == Unknown ==> FilterClause(k) == "cof_key:\"Unknown\""
    ensures k != Unknown ==> FilterClause(k) == "cof_key:\"" + Camelot(Wheel(Tonic(k), IsMinor(k)), IsMinor(k)) + "\""
  {
    if k != Unknown {
      NotationIsCamelot(k);
    }
  }

  /** Distinct keys give distinct clauses. */
  lemma {:induction false} FilterClauseInjective(a: SongKey, b: SongKey)
    requires FilterClause(a) == FilterClause(b)
    ensures a == b
  {
    var s := FilterClause(a);
    assert ToCircleOfFifths(a) == s[9..|s| - 1];
    assert ToCircleOfFifths(b) == s[9..|s| - 1];
    ToCircleOfFifthsInjective(a, b);
  }

  /** `[String]::join`: the parts with `sep` between each adjacent pair. */
  function Join(parts: seq<string>, sep: string): (r: string)
    ensures parts == [] ==> r == ""
    ensures |parts| == 1 ==> r == parts[0]
  {
    if parts == [] then ""
    else if |parts| == 1 then parts[0]
    else parts[0] + sep + Join(parts[1..], sep)
  }

  lemma {:induction false} JoinAppend(a: seq<string>, b: seq<string>, sep: string)
    requires a != [] && b != []
    ensures Join(a + b, sep) == Join(a, sep) + sep + Join(b, sep)
  {
    if |a| == 1 {
      assert (a + b)[1..] == b;
    } else {
      assert (a + b)[1..] == a[1..] + b;
      JoinAppend(a[1..], b, sep);
    }
  }

  function Clauses(keys: seq<SongKey>): seq<string>
  {
    seq(|keys|, i requires 0 <= i < |keys| => FilterClause(keys[i]))
  }

  /** The filter: the clauses of the keys, in order, joined with ` OR `. */
  function BuildFilterValue(keys: seq<SongKey>): (r: string)
    ensures keys == [] ==> r == ""
    ensures |keys| == 1 ==> r == FilterClause(keys[0])
  {
    Join(Clauses(keys), " OR ")
  }

  /**
   * The filter of a concatenation is the two filters joined by ` OR `: the
   * clauses appear exactly in input order.
   */
  lemma {:induction false} BuildFilterValueAppend(a: seq<SongKey>, b: seq<SongKey>)
    requires a != [] && b != []
    ensures BuildFilterValue(a + b) == BuildFilterValue(a) + " OR " + BuildFilterValue(b)
  {
    assert Clauses(a + b) == Clauses(a) + Clauses(b);
    JoinAppend(Clauses(a), Clauses(b), " OR ");
  }

  /** Prepending a key prepends its clause. */
  lemma {:induction false} BuildFilterValueCons(k: SongKey, rest: seq<SongKey>)
    requires rest != []
    ensures BuildFilterValue([k] + rest) == FilterClause(k) + " OR " + BuildFilterValue(rest)
  {
    BuildFilterValueAppend([k], rest);
  }

  /**
   * The filter built for the one populated compatibility row: six clauses,
   * 8B 8A 7A 7B 9A 9B, joined with ` OR `.
   */
  lemma AMinFilterValue()
    ensures BuildFilterValue(CompatibleKeys(AMin)) ==
      Join(["cof_key:\"8B\"", "cof_key:\"8A\"", "cof_key:\"7A\"",
            "cof_key:\"7B\"", "cof_key:\"9A\"", "cof_key:\"9B\""], " OR ")
  {
    var row := CompatibleKeys(AMin);
    assert FilterClause(CMaj) == "cof_key:\"8B\"" && FilterClause(AMin) == "cof_key:\"8A\"";
    assert FilterClause(DMin) == "cof_key:\"7A\"" && FilterClause(FMaj) == "cof_key:\"7B\"";
    assert FilterClause(EMin) == "cof_key:\"9A\"" && FilterClause(GMaj) == "cof_key:\"9B\"";
    assert Clauses(row) == ["cof_key:\"8B\"", "cof_key:\"8A\"", "cof_key:\"7A\"",
                            "cof_key:\"7B\"", "cof_key:\"9A\"", "cof_key:\"9B\""];
  }

  // ---------------------------------------------------------------------------
  // Query string
  // ---------------------------------------------------------------------------

  /**
   * `filter=<encoded filter>`, preceded by `query=<encoded text>&` for
   * non-empty text. The result holds one `&` when there is free text and
   * none otherwise, and one `=` per name/value pair.
   */
  function BuildQueryString(query: string, keys: seq<SongKey>): (r: string)
    ensures Occurrences('&', r) == (if query == "" then 0 else 1)
    ensures Occurrences('=', r) == (if query == "" then 1 else 2)
  {
    var filter := BuildFilterValue(keys);
    var filterStr := "filter=" + UrlEncode(filter);
    EncodedHasNoDelimiters(filter);
    FilterPairDelimiters(UrlEncode(filter));
    if query == "" then filterStr
    else
      EncodedHasNoDelimiters(query);
      QueryPairDelimiters(UrlEncode(query), UrlEncode(filter));
      "query=" + UrlEncode(query) + "&" + filterStr
  }

  function Occurrences(c: char, s: string): (n: nat)
    ensures n <= |s|
    ensures n == 0 <==> c !in s
  {
    if s == [] then 0 else (if s[0] == c then 1 else 0) + Occurrences(c, s[1..])
  }

  lemma {:induction false} OccurrencesAppend(c: char, a: string, b: string)
    ensures Occurrences(c, a + b) == Occurrences(c, a) + Occurrences(c, b)
  {
    if a != [] {
      assert (a + b)[1..] == a[1..] + b;
      OccurrencesAppend(c, a[1..], b);
    } else {
      assert a + b == b;
    }
  }

  /** `name=value` with a value free of delimiters holds no `&` and one `=`. */
  lemma {:induction false} PairDelimiters(name: string, value: string)
    requires name == "query" || name == "filter"
    requires '&' !in value && '=' !in value
    ensures Occurrences('&', name + "=" + value) == 0
    ensures Occurrences('=', name + "=" + value) == 1
  {
    OccurrencesAppend('&', name + "=", value);
    OccurrencesAppend('=', name + "=", value);
    OccurrencesAppend('&', name, "=");
    OccurrencesAppend('=', name, "=");
  }

  lemma {:induction false} FilterPairDelimiters(f: string)
    requires '&' !in f && '=' !in f
    ensures Occurrences('&', "filter=" + f) == 0 && Occurrences('=', "filter=" + f) == 1
  {
    assert "filter" + "=" == "filter=";
    PairDelimiters("filter", f);
  }

  lemma {:induction false} QueryPairDelimiters(q: string, f: string)
    requires '&' !in q && '=' !in q && '&' !in f && '=' !in f
    ensures Occurrences('&', "query=" + q + "&" + ("filter=" + f)) == 1
    ensures Occurrences('=', "query=" + q + "&" + ("filter=" + f)) == 2
  {
    assert "filter" + "=" == "filter=" && "query" + "=" == "query=";
    PairDelimiters("filter", f);
    PairDelimiters("query", q);
    var first, second := "query=" + q, "filter=" + f;
    OccurrencesAppend('&', first + "&", second);
    OccurrencesAppend('=', first + "&", second);
    OccurrencesAppend('&', first, "&");
    OccurrencesAppend('=', first, "&");
  }

  // ---------------------------------------------------------------------------
  // The form-urlencoded parser
  // ---------------------------------------------------------------------------

  /** The pieces of `s` between occurrences of `sep`. */
  function SplitOn(s: string, sep: char): (parts: seq<string>)
    ensures |parts| >= 1
  {
    if s == [] then [""]
    else
      var rest := SplitOn(s[1..], sep);
      if s[0] == sep then [""] + rest else [[s[0]] + rest[0]] + rest[1..]
  }

  lemma {:induction false} SplitOnNoSeparator(a: string, sep: char)
    requires sep !in a
    ensures SplitOn(a, sep) == [a]
  {
    if a != [] {
      SplitOnNoSeparator(a[1..], sep);
      assert [a[0]] + a[1..] == a;
    }
  }

  lemma {:induction false} SplitOnFirstSeparator(a: string, sep: char, b: string)
    requires sep !in a
    ensures SplitOn(a + [sep] + b, sep) == [a] + SplitOn(b, sep)
  {
    if a == [] {
      assert (a + [sep] + b)[1..] == b;
    } else {
      assert (a + [sep] + b)[1..] == a[1..] + [sep] + b;
      SplitOnFirstSeparator(a[1..], sep, b);
      assert [a[0]] + a[1..] == a;
    }
  }

  /** A piece split at its first `=`; without one, the value is empty. */
  function SplitAtFirst(s: string, sep: char): (string, string)
  {
    if s == [] then ("", "")
    else if s[0] == sep then ("", s[1..])
    else var (name, value) := SplitAtFirst(s[1..], sep); ([s[0]] + name, value)
  }

  lemma {:induction false} SplitAtFirstSeparator(a: string, sep: char, b: string)
    requires sep !in a
    ensures SplitAtFirst(a + [sep] + b, sep) == (a, b)
  {
    if a == [] {
      assert (a + [sep] + b)[1..] == b;
    } else {
      assert (a + [sep] + b)[1..] == a[1..] + [sep] + b;
      SplitAtFirstSeparator(a[1..], sep, b);
      assert [a[0]] + a[1..] == a;
    }
  }

  /** `form_urlencoded::parse`: the decoded name/value pairs, in order. */
  function FormParse(s: string): seq<(seq<byte>, seq<byte>)>
  {
    ParsePieces(SplitOn(s, '&'))
  }

  function ParsePieces(pieces: seq<string>): seq<(seq<byte>, seq<byte>)>
  {
    if pieces == [] then []
    else if pieces[0] == "" then ParsePieces(pieces[1..])
    else
      var (name, value) := SplitAtFirst(pieces[0], '=');
      [(FormDecode(name), FormDecode(value))] + ParsePieces(pieces[1..])
  }

  /** A `name=value` piece free of `&` parses to its one decoded pair. */
  lemma {:induction false} ParseOnePair(name: string, value: string)
    requires '=' !in name && '&' !in name && '&' !in value
    ensures ParsePieces(SplitOn(name + "=" + value, '&')) == [(FormDecode(name), FormDecode(value))]
  {
    var piece := name + "=" + value;
    assert '&' !in piece by {
      forall i | 0 <= i < |piece| ensures piece[i] != '&' {
        if i < |name| { assert piece[i] == name[i]; }
        else if i > |name| { assert piece[i] == value[i - |name| - 1]; }
      }
    }
    SplitOnNoSeparator(piece, '&');
    assert piece == name + ['='] + value;
    SplitAtFirstSeparator(name, '=', value);
    assert ParsePieces([piece][1..]) == [];
  }

  /** Two such pieces joined by `&` parse to the two pairs, in order. */
  lemma {:induction false} ParseTwoPairs(name: string, value: string, name': string, value': string)
    requires '=' !in name && '&' !in name && '&' !in value
    requires '=' !in name' && '&' !in name' && '&' !in value'
    ensures ParsePieces(SplitOn((name + "=" + value) + "&" + (name' + "=" + value'), '&')) ==
      [(FormDecode(name), FormDecode(value)), (FormDecode(name'), FormDecode(value'))]
  {
    var first, second := name + "=" + value, name' + "=" + value';
    assert '&' !in first by {
      forall i | 0 <= i < |first| ensures first[i] != '&' {
        if i < |name| { assert first[i] == name[i]; }
        else if i > |name| { assert first[i] == value[i - |name| - 1]; }
      }
    }
    assert first + "&" == first + ['&'];
    SplitOnFirstSeparator(first, '&', second);
    var rest := SplitOn(second, '&');
    assert first != [];
    assert first == name + ['='] + value;
    SplitAtFirstSeparator(name, '=', value);
    assert ParsePieces([first] + rest) == [(FormDecode(name), FormDecode(value))] + ParsePieces(rest) by {
      assert ([first] + rest)[1..] == rest;
    }
    ParseOnePair(name', value');
  }

  lemma EncodedHasNoDelimiters(s: string)
    ensures '&' !in UrlEncode(s) && '=' !in UrlEncode(s)
  {
  }

  /** Decoding bytes without `+` or `%` changes nothing. */
  lemma {:induction false} PercentDecodePlain(bs: seq<byte>)
    requires forall i :: 0 <= i < |bs| ==> bs[i] != 0x2B && bs[i] != 0x25
    ensures PercentDecode(bs) == bs
  {
    if bs != [] {
      PercentDecodePlain(bs[1..]);
    }
  }

  /** The parameter names decode to their own bytes. */
  lemma DecodeName(name: string)
    requires name == "query" || name == "filter"
    ensures FormDecode(name) == Utf8(name)
  {
    PercentDecodePlain(Utf8(name));
  }

  lemma {:induction false} ParseFilterOnly(f: string)
    requires '&' !in f
    ensures FormParse("filter=" + f) == [(FormDecode("filter"), FormDecode(f))]
  {
    assert "filter" + "=" == "filter=";
    ParseOnePair("filter", f);
  }

  lemma {:induction false} FilterOnlyRoundTrip(keys: seq<SongKey>)
    ensures FormParse(BuildQueryString("", keys)) == [(Utf8("filter"), Utf8(BuildFilterValue(keys)))]
  {
    var filter := BuildFilterValue(keys);
    EncodedHasNoDelimiters(filter);
    ParseFilterOnly(UrlEncode(filter));
    UrlEncodeRoundTrip(filter);
    DecodeName("filter");
  }

  lemma {:induction false} ParseQueryAndFilter(q: string, f: string)
    requires '&' !in q && '&' !in f
    ensures FormParse("query=" + q + "&" + ("filter=" + f)) ==
      [(FormDecode("query"), FormDecode(q)), (FormDecode("filter"), FormDecode(f))]
  {
    assert "filter" + "=" == "filter=" && "query" + "=" == "query=";
    ParseTwoPairs("query", q, "filter", f);
  }

  lemma {:induction false} QueryAndFilterRoundTrip(query: string, keys: seq<SongKey>)
    requires query != ""
    ensures FormParse(BuildQueryString(query, keys)) ==
      [(Utf8("query"), Utf8(query)), (Utf8("filter"), Utf8(BuildFilterValue(keys)))]
  {
    var filter := BuildFilterValue(keys);
    EncodedHasNoDelimiters(filter);
    EncodedHasNoDelimiters(query);
    ParseQueryAndFilter(UrlEncode(query), UrlEncode(filter));
    UrlEncodeRoundTrip(filter);
    UrlEncodeRoundTrip(query);
    DecodeName("filter");
    DecodeName("query");
  }

  /**
   * The round trip of the query string: parsing it gives the `query` pair
   * (when the text is non-empty) and then the `filter` pair, each value
   * decoding to the UTF-8 bytes of what was encoded.
   */
  lemma {:induction false} QueryStringRoundTrip(query: string, keys: seq<SongKey>)
    ensures FormParse(BuildQueryString(query, keys)) ==
      (if query == "" then [] else [(Utf8("query"), Utf8(query))]) +
      [(Utf8("filter"), Utf8(BuildFilterValue(keys)))]
  {
    if query == "" {
      FilterOnlyRoundTrip(keys);
    } else {
      QueryAndFilterRoundTrip(query, keys);
    }
  }
}
