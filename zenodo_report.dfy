/**
 * Reading one field out of the text report the Zenodo helper prints after
 * `create --show`: lines of the form `Key: value`.
 */
module ZenodoReport {
  import opened JsStrings

  /**
   * parseFromZenodoResponse(content, key): from the first occurrence of
   * `key:` anywhere in the content, the rest of that line after the first
   * colon, trimmed. When `key:` does not occur, indexOf gives -1 and the chain
   * continues on the last character alone, which never leaves anything.
   */
  function ParseFromZenodoResponse(content: string, key: string): (r: string)
    ensures r == [] || (!IsJsWhitespace(r[0]) && !IsJsWhitespace(r[|r| - 1]))
  {
    var fromKey := Substr(content, IndexOf(content, key + ":"));
    var line := Split(fromKey, '\n')[0];
    Trim(Join(Split(line, ':')[1..], ':'))
  }

  /**
   * The value is the trimmed text after the first `key:` up to the next
   * newline or the end of the report. The match need not start a line
   * (`pre` is arbitrary), colons inside the value are kept, and whatever
   * follows the line (`rest`), later lines with the same key included, is
   * ignored. Holds for keys without a colon or a newline, as DOI, URL and
   * RecordId are.
   */
  lemma FirstOccurrenceValue(pre: string, key: string, line: string, rest: string)
    requires ':' !in key && '\n' !in key && '\n' !in line
    requires rest == [] || rest[0] == '\n'
    requires forall j :: 0 <= j < |pre| ==> !OccursAt(pre + key + ":" + line + rest, key + ":", j)
    ensures ParseFromZenodoResponse(pre + key + ":" + line + rest, key) == Trim(line)
  {
    var content := pre + key + ":" + line + rest;
    var k := key + ":";
    assert content[|pre|..|pre| + |k|] == k;
    assert OccursAt(content, k, |pre|);
    IndexOfIsFirst(content, k);
    var i := IndexOf(content, k);
    assert i == |pre|;
    var fromKey := Substr(content, i);
    assert fromKey == key + ":" + line + rest;
    var first := key + ":" + line;
    assert '\n' !in first;
    if rest == [] {
      assert fromKey == first;
      SplitWithoutSeparator(first, '\n');
    } else {
      assert fromKey == first + ['\n'] + rest[1..];
      HeadAndTailOfSplit(first, '\n', rest[1..]);
    }
    assert Split(fromKey, '\n')[0] == key + [':'] + line;
    HeadAndTailOfSplit(key, ':', line);
  }

  /**
   * A report in which `key:` does not occur (the empty report included) gives
   * the empty string, whatever the key.
   */
  lemma MissingKeyYieldsEmpty(content: string, key: string)
    requires forall j :: !OccursAt(content, key + ":", j)
    ensures ParseFromZenodoResponse(content, key) == ""
  {
    assert IndexOf(content, key + ":") == -1;
    var fromKey := Substr(content, -1);
    if content == [] {
      assert fromKey == [];
    } else {
      var last := content[|content| - 1];
      assert fromKey == [last];
      if last == '\n' {
        HeadAndTailOfSplit([], '\n', []);
        assert [] + ['\n'] + [] == [last];
      } else {
        SplitWithoutSeparator([last], '\n');
        if last == ':' {
          HeadAndTailOfSplit([], ':', []);
          assert [] + [':'] + [] == [last];
        } else {
          SplitWithoutSeparator([last], ':');
        }
      }
    }
  }

  /**
   * A line written as `Key: value` gives back the value exactly, when the value
   * neither starts nor ends with whitespace and holds no newline.
   */
  lemma SpacedLineValue(pre: string, key: string, value: string, rest: string)
    requires ':' !in key && '\n' !in key && '\n' !in value
    requires value == [] || (!IsJsWhitespace(value[0]) && !IsJsWhitespace(value[|value| - 1]))
    requires rest == [] || rest[0] == '\n'
    requires forall j :: 0 <= j < |pre| ==> !OccursAt(pre + key + ": " + value + rest, key + ":", j)
    ensures ParseFromZenodoResponse(pre + key + ": " + value + rest, key) == value
  {
    var line := " " + value;
    assert pre + key + ": " + value + rest == pre + key + ":" + line + rest;
    FirstOccurrenceValue(pre, key, line, rest);
    TrimLeadingSpace(value);
  }

  /** A key cannot occur where the text before it lacks the key's first character. */
  lemma KeyAbsentFrom(pre: string, s: string, k: string)
    requires k != [] && k[0] !in pre && pre <= s
    ensures forall j :: 0 <= j < |pre| ==> !OccursAt(s, k, j)
  {
    forall j | 0 <= j < |pre|
      ensures !OccursAt(s, k, j)
    {
      assert s[j] == pre[j] != k[0];
      assert j + |k| <= |s| ==> s[j..j + |k|][0] == s[j];
    }
  }

  /**
   * A `URL: <url>` line whose URL has no surrounding whitespace gives back the
   * whole URL, the colons of its scheme and port included, when the report
   * before it holds no `U` (as the `DOI:` line before it does not).
   */
  lemma UrlValueKeepsColons(pre: string, url: string, rest: string)
    requires 'U' !in pre
    requires '\n' !in url && url != [] && !IsJsWhitespace(url[0]) && !IsJsWhitespace(url[|url| - 1])
    requires rest == [] || rest[0] == '\n'
    ensures ParseFromZenodoResponse(pre + "URL" + ": " + url + rest, "URL") == url
  {
    var report := pre + "URL" + ": " + url + rest;
    assert pre <= report;
    KeyAbsentFrom(pre, report, "URL" + ":");
    SpacedLineValue(pre, "URL", url, rest);
  }

  /**
   * The match is not tied to the start of a line: a `ConceptDOI: <concept>`
   * line supplies the DOI, whatever follows it (the `DOI:` line included),
   * when the report before it holds no `D`.
   */
  lemma UnanchoredMatch(pre: string, concept: string, rest: string)
    requires 'D' !in pre
    requires '\n' !in concept
    requires concept == [] || (!IsJsWhitespace(concept[0]) && !IsJsWhitespace(concept[|concept| - 1]))
    requires rest == [] || rest[0] == '\n'
    ensures ParseFromZenodoResponse(pre + "ConceptDOI" + ": " + concept + rest, "DOI") == concept
  {
    var before := pre + "Concept";
    var report := before + "DOI" + ": " + concept + rest;
    assert pre + "ConceptDOI" + ": " + concept + rest == report;
    assert 'D' !in before;
    assert before <= report;
    KeyAbsentFrom(before, report, "DOI" + ":");
    SpacedLineValue(before, "DOI", concept, rest);
  }
}
