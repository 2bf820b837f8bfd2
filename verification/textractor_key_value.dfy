/**
 * go-textractor's form fields: a key and its value, each a list of words (a value may instead
 * hold a selection element), and their text renderings.
 */
module TextractorKeyValue {
  import opened GoStrings
  import opened Wrappers
  import opened TextractorTypes
  import opened TextractorUtil
  import TextractorSelection

  datatype Key = Key(words: seq<Word>)

  datatype Value = Value(words: seq<Word>, selection: Option<SelectionElement>)

  datatype KeyValue = KeyValue(key: Key, value: Value)

  /** Key.Text: the key's words joined by single spaces. */
  method KeyText(k: Key) returns (text: string)
    ensures text == SpacedText(k.words)
  {
    text := JoinWordTexts(k.words);
  }

  /** Replaces double spaces by single ones until none is left. */
  function CollapseSpaces(s: string): (r: string)
    ensures !Contains(r, "  ")
    decreases |s|
  {
    if Contains(s, "  ") then
      ReplaceAllShrinks(s, "  ", " ");
      CollapseSpaces(ReplaceAll(s, "  ", " "))
    else s
  }

  /** The text of a value's words: newlines become spaces and runs of spaces become one. */
  function WordsValueText(words: seq<Word>): string {
    CollapseSpaces(ReplaceAll(SpacedText(words), "\n", " "))
  }

  /** Value.Text: the selection element's marker if there is one, else the cleaned-up words. */
  function ValueText(v: Value, opts: TextLinearizationOptions): string {
    if v.selection.Some? then TextractorSelection.Text(v.selection.value, opts) else WordsValueText(v.words)
  }

  /** Value.Text, with the source's replace-until-no-double-space loop. */
  method ValueTextOf(v: Value, opts: TextLinearizationOptions) returns (text: string)
    ensures text == ValueText(v, opts)
  {
    if v.selection.Some? {
      return TextractorSelection.Text(v.selection.value, opts);
    }
    text := JoinWordTexts(v.words);
    text := ReplaceAll(text, "\n", " ");
    while Contains(text, "  ")
      invariant CollapseSpaces(text) == WordsValueText(v.words)
      decreases |text|
    {
      ReplaceAllShrinks(text, "  ", " ");
      text := ReplaceAll(text, "  ", " ");
    }
  }

  /** The text with its spaces and newlines removed: what whitespace clean-up must keep. */
  function Squeeze(s: string): (r: string)
    ensures ' ' !in r && '\n' !in r
  {
    if |s| == 0 then ""
    else (if s[0] == ' ' || s[0] == '\n' then "" else [s[0]]) + Squeeze(s[1..])
  }

  lemma {:induction false} SqueezeAppend(a: string, b: string)
    ensures Squeeze(a + b) == Squeeze(a) + Squeeze(b)
    decreases |a|
  {
    if |a| > 0 {
      SqueezeAppend(a[1..], b);
      assert (a + b)[1..] == a[1..] + b;
    } else {
      assert a + b == b;
    }
  }

  /** Replacing a whitespace pattern by whitespace keeps everything else. */
  lemma {:induction false} ReplaceWhitespaceKeepsSqueeze(s: string, pat: string, rep: string)
    requires pat == "  " || pat == "\n"
    requires rep == " "
    ensures Squeeze(ReplaceAll(s, pat, rep)) == Squeeze(s)
    decreases |s|
  {
    if |s| > 0 {
      if HasPrefix(s, pat) {
        ReplaceWhitespaceKeepsSqueeze(s[|pat|..], pat, rep);
        SqueezeAppend(rep, ReplaceAll(s[|pat|..], pat, rep));
        assert s == pat + s[|pat|..];
        SqueezeAppend(pat, s[|pat|..]);
        if pat == "  " {
          assert Squeeze(pat) == Squeeze(pat[1..]);
        }
      } else {
        ReplaceWhitespaceKeepsSqueeze(s[1..], pat, rep);
        assert ([s[0]] + ReplaceAll(s[1..], pat, rep))[1..] == ReplaceAll(s[1..], pat, rep);
      }
    }
  }

  /** Collapsing keeps every non-space character and introduces no newline. */
  lemma {:induction false} CollapseSpacesKeeps(s: string)
    ensures Squeeze(CollapseSpaces(s)) == Squeeze(s)
    ensures '\n' !in s ==> '\n' !in CollapseSpaces(s)
    decreases |s|
  {
    if Contains(s, "  ") {
      ReplaceAllShrinks(s, "  ", " ");
      ReplaceWhitespaceKeepsSqueeze(s, "  ", " ");
      if '\n' !in s {
        ReplaceAllChars(s, "  ", " ", '\n');
      }
      CollapseSpacesKeeps(ReplaceAll(s, "  ", " "));
    }
  }

  /**
   * A word value's text has no newline and no double space, and keeps every other character of
   * the words in order.
   */
  lemma WordsValueTextClean(words: seq<Word>)
    ensures '\n' !in WordsValueText(words)
    ensures !Contains(WordsValueText(words), "  ")
    ensures Squeeze(WordsValueText(words)) == Squeeze(SpacedText(words))
  {
    var joined := SpacedText(words);
    ReplaceAllRemovesChar(joined, '\n', " ");
    ReplaceWhitespaceKeepsSqueeze(joined, "\n", " ");
    CollapseSpacesKeeps(ReplaceAll(joined, "\n", " "));
  }

  /** The key as rendered inside KeyValue.Text: key prefix, key words, key suffix. */
  function PrefixedKey(kv: KeyValue, opts: TextLinearizationOptions): string {
    opts.keyPrefix + SpacedText(kv.key.words) + opts.keySuffix
  }

  /** The value as rendered inside KeyValue.Text (its own text with the default options). */
  function PrefixedValue(kv: KeyValue, opts: TextLinearizationOptions): string {
    opts.valuePrefix + ValueText(kv.value, DefaultOptions) + opts.valueSuffix
  }

  /**
   * The text of a key/value pair: empty when both rendered parts are empty; otherwise key, the
   * paragraph separator and value (value first when it is a selection element), between the
   * pair prefix and suffix.
   */
  function KeyValueText(kv: KeyValue, opts: TextLinearizationOptions): string {
    var keyText := PrefixedKey(kv, opts);
    var valueText := PrefixedValue(kv, opts);
    if |keyText| == 0 && |valueText| == 0 then ""
    else
      var text := if kv.value.selection.Some? then valueText + opts.sameParagraphSeparator + keyText
                  else keyText + opts.sameParagraphSeparator + valueText;
      opts.keyValuePrefix + text + opts.keyValueSuffix
  }

  /** KeyValue.Text. */
  method Text(kv: KeyValue, opts: TextLinearizationOptions) returns (text: string)
    ensures text == KeyValueText(kv, opts)
  {
    var keyText := KeyText(kv.key);
    keyText := opts.keyPrefix + keyText + opts.keySuffix;
    var valueText := ValueTextOf(kv.value, DefaultOptions);
    valueText := opts.valuePrefix + valueText + opts.valueSuffix;
    if |keyText| == 0 && |valueText| == 0 {
      return "";
    }
    text := keyText + opts.sameParagraphSeparator + valueText;
    if kv.value.selection.Some? {
      text := valueText + opts.sameParagraphSeparator + keyText;
    }
    text := opts.keyValuePrefix + text + opts.keyValueSuffix;
  }

  /** The pair's text is empty exactly when both rendered parts are. */
  lemma KeyValueTextEmpty(kv: KeyValue, opts: TextLinearizationOptions)
    ensures KeyValueText(kv, opts) == "" <==> PrefixedKey(kv, opts) == "" && PrefixedValue(kv, opts) == ""
  {
  }

  /**
   * With the default options a check-box value comes first: "[X] " or "[ ] " and then the key's
   * words; any other value follows the key after one space.
   */
  lemma KeyValueTextDefault(kv: KeyValue)
    requires SpacedText(kv.key.words) != "" || kv.value.selection.Some?
    ensures kv.value.selection.Some? ==>
      KeyValueText(kv, DefaultOptions) == TextractorSelection.String(kv.value.selection.value) + " " + SpacedText(kv.key.words)
    ensures kv.value.selection.None? ==>
      KeyValueText(kv, DefaultOptions) == SpacedText(kv.key.words) + " " + WordsValueText(kv.value.words)
  {
  }

  /** String: "value key" for a check-box value, "key : value" otherwise. */
  method String(kv: KeyValue) returns (s: string)
    ensures kv.value.selection.Some? ==> s == ValueText(kv.value, DefaultOptions) + " " + SpacedText(kv.key.words)
    ensures kv.value.selection.None? ==> s == SpacedText(kv.key.words) + " : " + ValueText(kv.value, DefaultOptions)
  {
    var k := KeyText(kv.key);
    var v := ValueTextOf(kv.value, DefaultOptions);
    if kv.value.selection.Some? {
      return v + " " + k;
    }
    return k + " : " + v;
  }

  /** KeyValue.Words: the key's words followed by the value's words. */
  method Words(kv: KeyValue) returns (words: seq<Word>)
    ensures words == kv.key.words + kv.value.words
  {
    var lists := [kv.key.words, kv.value.words];
    words := Concatenate(lists);
    assert lists[..1] == [kv.key.words] && lists[..1][..0] == [];
    assert Flatten(lists[..1]) == kv.key.words;
  }
}
