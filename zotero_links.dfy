/**
 * The two identifiers the create flow derives from a created Zotero item:
 * the `zotero://select` link written into the deposit, and the printed
 * `library.id:key` compound ID.
 */
module ZoteroLinks {
  import opened JsStrings

  const ZOTERO_API_PREFIX: string := "https://api.zotero.org"
  const ZOTERO_SELECT_PREFIX: string := "zotero://select"

  /** `href.replace(zoteroApiPrefix, zoteroSelectPrefix)`. */
  function SelectLink(href: string): (r: string)
    ensures IndexOf(href, ZOTERO_API_PREFIX) < 0 ==> r == href
    ensures IndexOf(href, ZOTERO_API_PREFIX) >= 0 ==> |r| == |href| - |ZOTERO_API_PREFIX| + |ZOTERO_SELECT_PREFIX|
  {
    ReplaceFirst(href, ZOTERO_API_PREFIX, ZOTERO_SELECT_PREFIX)
  }

  /** An API self link becomes the select link of the same library path. */
  lemma SelectLinkOfApiHref(path: string)
    ensures SelectLink(ZOTERO_API_PREFIX + path) == ZOTERO_SELECT_PREFIX + path
  {
    ReplacePrefix(ZOTERO_API_PREFIX, path, ZOTERO_SELECT_PREFIX);
  }

  /**
   * Only the first occurrence of the API prefix is rewritten, wherever it
   * stands; the text before it and everything after it, later occurrences
   * included, are kept.
   */
  lemma SelectLinkRewritesFirstOccurrence(pre: string, rest: string)
    requires forall j :: 0 <= j < |pre| ==> !OccursAt(pre + ZOTERO_API_PREFIX + rest, ZOTERO_API_PREFIX, j)
    ensures SelectLink(pre + ZOTERO_API_PREFIX + rest) == pre + ZOTERO_SELECT_PREFIX + rest
  {
    var href := pre + ZOTERO_API_PREFIX + rest;
    assert href[|pre|..|pre| + |ZOTERO_API_PREFIX|] == ZOTERO_API_PREFIX;
    assert OccursAt(href, ZOTERO_API_PREFIX, |pre|);
    IndexOfIsFirst(href, ZOTERO_API_PREFIX);
    assert IndexOf(href, ZOTERO_API_PREFIX) == |pre|;
    assert href[..|pre|] == pre;
    assert href[|pre| + |ZOTERO_API_PREFIX|..] == rest;
  }

  /** An href without the API prefix is returned unchanged. */
  lemma SelectLinkWithoutApiPrefix(href: string)
    requires forall j :: !OccursAt(href, ZOTERO_API_PREFIX, j)
    ensures SelectLink(href) == href
  {
    ReplaceAbsent(href, ZOTERO_API_PREFIX, ZOTERO_SELECT_PREFIX);
  }

  // ------------------------------------------------------------ compound ID

  predicate IsDigit(c: char) {
    '0' as int <= c as int <= '9' as int
  }

  function DigitChar(d: nat): (c: char)
    requires d < 10
    ensures IsDigit(c) && c as int - '0' as int == d
  {
    ('0' as int + d) as char
  }

  /** A library id as a template literal prints it: decimal digits. */
  function Decimal(n: nat): (r: string)
    ensures |r| >= 1
    ensures forall i :: 0 <= i < |r| ==> IsDigit(r[i])
    ensures r[0] == '0' ==> n == 0
    decreases n
  {
    if n < 10 then [DigitChar(n)] else Decimal(n / 10) + [DigitChar(n % 10)]
  }

  /** The number a string of decimal digits denotes. */
  function DecimalValue(s: string): nat
    requires forall i :: 0 <= i < |s| ==> IsDigit(s[i])
    decreases |s|
  {
    if s == [] then 0
    else
      assert IsDigit(s[|s| - 1]);
      DecimalValue(s[..|s| - 1]) * 10 + (s[|s| - 1] as int - '0' as int)
  }

  /** Printing a library id loses nothing: its digits denote it. */
  lemma {:induction false} DecimalRoundTrip(n: nat)
    ensures DecimalValue(Decimal(n)) == n
    decreases n
  {
    var r := Decimal(n);
    if n >= 10 {
      DecimalRoundTrip(n / 10);
      assert r[..|r| - 1] == Decimal(n / 10);
    }
  }

  /** `${library.id}:${key}`, the printed Zotero ID. */
  function ZoteroId(libraryId: nat, key: string): (r: string)
    ensures |r| > |key| + 1 && IsDigit(r[0])
    ensures r[|r| - |key| - 1] == ':' && r[|r| - |key|..] == key
  {
    Decimal(libraryId) + ":" + key
  }

  /**
   * Split at its first colon, the printed ID gives back the library id and the
   * item key: the digits hold no colon.
   */
  lemma ZoteroIdSplits(libraryId: nat, key: string)
    ensures var parts := Split(ZoteroId(libraryId, key), ':');
            && parts[0] == Decimal(libraryId)
            && DecimalValue(parts[0]) == libraryId
            && Join(parts[1..], ':') == key
  {
    var d := Decimal(libraryId);
    assert ':' !in d by {
      forall i | 0 <= i < |d| ensures d[i] != ':' { assert IsDigit(d[i]); }
    }
    assert ZoteroId(libraryId, key) == d + [':'] + key;
    HeadAndTailOfSplit(d, ':', key);
    DecimalRoundTrip(libraryId);
  }
}
