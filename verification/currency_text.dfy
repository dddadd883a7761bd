/** The string steps of the currency responder, up to the point where the
    amount text would be read as a floating-point number. The message text is
    taken as already lower-cased.

    For the rouble entry, the responder checks whether the text contains the
    table entry `рублей|руб|₽` as a literal substring. If so, it takes the
    text before the first occurrence and deletes every comma, full stop and
    space. The entry is a list of alternatives joined by `|`, but it is
    searched for whole. So the branch only fires on text that contains the
    three alternatives with the bars between them. `RubAmountText` models
    that, and `RubAmountTextIntended` models matching any single
    alternative.

    Both describe the rouble step on its own. The responder walks the table
    in order, and the dollar entry comes first. A non-rouble entry calls
    `.search` on a plain string, which raises. So, as written, the loop
    stops before the rouble entry on every message (`RunEntries`). */
module CurrencyText {
  import opened Wrappers
  import opened Text

  /** The rouble entry of the keyword table, as written. */
  const RubKeyword: string := "рублей|руб|₽"

  /** The alternatives the rouble entry lists. */
  const RubAlternatives: seq<string> := ["рублей", "руб", "₽"]

  /** The characters deleted from an amount before it is parsed. */
  predicate IsSeparator(c: char)
  {
    c == ',' || c == '.' || c == ' '
  }

  /** Reference definition: the non-separator characters of `s`, in order. */
  function StripSeparators(s: string): (r: string)
    ensures forall i :: 0 <= i < |r| ==> !IsSeparator(r[i])
    ensures forall c :: c in r ==> c in s
  {
    if |s| == 0 then "" else (if IsSeparator(s[0]) then "" else [s[0]]) + StripSeparators(s[1..])
  }

  /** The responder's three successive deletions: commas, then full stops,
      then spaces. */
  function NormaliseAmount(s: string): string
  {
    RemoveAll(RemoveAll(RemoveAll(s, ','), '.'), ' ')
  }

  lemma NormaliseOneChar(c: char)
    ensures NormaliseAmount([c]) == StripSeparators([c])
  {
    RemoveAllSingle(c, ',');
    var a := RemoveAll([c], ',');
    if a == [c] {
      RemoveAllSingle(c, '.');
      var b := RemoveAll(a, '.');
      if b == [c] {
        RemoveAllSingle(c, ' ');
      }
    }
    assert [c][1..] == "";
  }

  lemma NormaliseConcat(a: string, b: string)
    ensures NormaliseAmount(a + b) == NormaliseAmount(a) + NormaliseAmount(b)
  {
    RemoveAllConcat(a, b, ',');
    RemoveAllConcat(RemoveAll(a, ','), RemoveAll(b, ','), '.');
    RemoveAllConcat(RemoveAll(RemoveAll(a, ','), '.'), RemoveAll(RemoveAll(b, ','), '.'), ' ');
  }

  /** The three passes delete exactly the separators and keep every other
      character, in order. */
  lemma {:induction false} NormaliseIsStrip(s: string)
    ensures NormaliseAmount(s) == StripSeparators(s)
  {
    if |s| > 0 {
      assert s == [s[0]] + s[1..];
      NormaliseConcat([s[0]], s[1..]);
      NormaliseIsStrip(s[1..]);
      NormaliseOneChar(s[0]);
      StripConcat([s[0]], s[1..]);
    }
  }

  /** Stripping works piece by piece. */
  lemma {:induction false} StripConcat(a: string, b: string)
    ensures StripSeparators(a + b) == StripSeparators(a) + StripSeparators(b)
  {
    if |a| > 0 {
      assert (a + b)[1..] == a[1..] + b;
      StripConcat(a[1..], b);
    } else {
      assert a + b == b;
    }
  }

  /** Text without separators comes through unchanged, so normalising twice
      is normalising once. */
  lemma {:induction false} StripKeepsCleanText(s: string)
    requires forall i :: 0 <= i < |s| ==> !IsSeparator(s[i])
    ensures StripSeparators(s) == s
  {
    if |s| > 0 {
      StripKeepsCleanText(s[1..]);
      assert s == [s[0]] + s[1..];
    }
  }

  /** The amount text of a rouble-style entry: when the text contains
      `keyword` as a literal substring, the text before its first occurrence
      with the separators deleted. Python's `split` refuses an empty
      separator, hence the precondition. */
  function AmountBefore(text: string, keyword: string): (r: Option<string>)
    requires |keyword| > 0
    ensures r.Some? <==> exists k: nat :: OccursAt(text, keyword, k)
    ensures r.Some? ==>
              exists k: nat ::
                && OccursAt(text, keyword, k)
                && (forall j :: 0 <= j < k ==> !OccursAt(text, keyword, j))
                && r.value == StripSeparators(text[..k])
  {
    if Contains(text, keyword) then
      var field := FirstField(text, keyword);
      NormaliseIsStrip(field);
      assert text[..|field|] == field;
      Some(NormaliseAmount(field))
    else
      None
  }

  /** Lines 169-170 of the rouble branch as written, when reached: if the
      text contains the whole entry `рублей|руб|₽`, the normalised text
      before its first occurrence. */
  function RubAmountText(text: string): (r: Option<string>)
    ensures r.Some? <==> exists k: nat :: OccursAt(text, RubKeyword, k)
    ensures r.Some? ==>
              exists k: nat ::
                && OccursAt(text, RubKeyword, k)
                && (forall j :: 0 <= j < k ==> !OccursAt(text, RubKeyword, j))
                && r.value == StripSeparators(text[..k])
  {
    AmountBefore(text, RubKeyword)
  }

  /** The keyword table, in the order the responder walks it: the order the
      entries are written in. */
  const CurrencyTable: seq<(string, string)> := [
    ("usd", "$|баксы|долларов|доллар|$"),
    ("eur", "евро"),
    ("gbp", "фунты|фунтов"),
    ("jpy", "йен"),
    ("cny", "юаней|юань|يوان|元"),
    ("aud", "ауд|австралийских долларов"),
    ("cad", "канадских долларов|канадский доллар"),
    ("chf", "швейцарских франков|швейцарский франк|fr."),
    ("sek", "шведских крон|шведская крона"),
    ("nok", "норвежских крон|норвежская крона"),
    ("dkk", "датских крон|датская крона"),
    ("thb", "бат"),
    ("rub", RubKeyword),
    ("idr", "рупий|идр")
  ]

  /** Where one run of the responder's loop ends: the rouble amount texts it
      produced, and whether it stopped on an exception. */
  datatype ResponderRun = ResponderRun(amountTexts: seq<string>, raised: bool)

  /** `t` is the amount text of a rouble entry that only rouble entries
      precede. */
  predicate LeadingRoubleAmount(entries: seq<(string, string)>, text: string, t: string)
  {
    exists i :: 0 <= i < |entries| && entries[i].0 == "rub" && |entries[i].1| > 0
      && (forall j :: 0 <= j < i ==> entries[j].0 == "rub")
      && AmountBefore(text, entries[i].1) == Some(t)
  }

  lemma LeadingRoubleShift(entries: seq<(string, string)>, text: string, t: string)
    requires |entries| > 0 && entries[0].0 == "rub"
    requires LeadingRoubleAmount(entries[1..], text, t)
    ensures LeadingRoubleAmount(entries, text, t)
  {
    var tail := entries[1..];
    var i :| 0 <= i < |tail| && tail[i].0 == "rub" && |tail[i].1| > 0
             && (forall j :: 0 <= j < i ==> tail[j].0 == "rub")
             && AmountBefore(text, tail[i].1) == Some(t);
    var k := i + 1;
    assert entries[k] == tail[i];
    forall j | 0 <= j < k ensures entries[j].0 == "rub" {
      if j > 0 { assert entries[j] == tail[j - 1]; }
    }
    assert 0 <= k < |entries| && entries[k].0 == "rub" && |entries[k].1| > 0
      && AmountBefore(text, entries[k].1) == Some(t);
  }

  /** The responder's loop over the table. A non-rouble entry calls `.search`
      on one of its alternatives, which is a `str`. That raises and ends the
      handler. A rouble entry yields its amount text when its keyword occurs,
      and the loop goes on. */
  function RunEntries(entries: seq<(string, string)>, text: string): (r: ResponderRun)
    requires forall i :: 0 <= i < |entries| ==> |entries[i].1| > 0
    ensures r.raised <==> exists i :: 0 <= i < |entries| && entries[i].0 != "rub"
    ensures |r.amountTexts| <= |entries|
    // Amount texts come only from rouble entries ahead of every other entry,
    // and each is the amount text of its entry.
    ensures |r.amountTexts| > 0 ==> entries[0].0 == "rub"
    ensures forall t :: t in r.amountTexts ==> LeadingRoubleAmount(entries, text, t)
  {
    if |entries| == 0 then
      ResponderRun([], false)
    else if entries[0].0 != "rub" then
      ResponderRun([], true)
    else
      var rest := RunEntries(entries[1..], text);
      assert forall i :: 0 < i < |entries| ==> entries[i] == entries[1..][i - 1];
      forall t | t in rest.amountTexts ensures LeadingRoubleAmount(entries, text, t) {
        LeadingRoubleShift(entries, text, t);
      }
      var first := AmountBefore(text, entries[0].1);
      if first.None? then rest
      else
        assert LeadingRoubleAmount(entries, text, first.value);
        ResponderRun([first.value] + rest.amountTexts, rest.raised)
  }

  /** As written, the dollar entry comes first and raises on every message,
      so the rouble entry (the thirteenth) is never reached and no amount
      text is produced, whatever the text. */
  lemma ResponderNeverReachesRoubles(text: string)
    ensures CurrencyTable[0].0 == "usd" && CurrencyTable[12] == ("rub", RubKeyword)
    ensures RunEntries(CurrencyTable, text) == ResponderRun([], true)
  {
  }

  /** The branch needs a `|` in the message: ordinary text never reaches it. */
  lemma RubKeywordNeedsBar(text: string)
    requires '|' !in text
    ensures RubAmountText(text) == None
  {
    assert RubKeyword[6] == '|';
    ContainsNeedsChar(text, RubKeyword, 6);
  }

  /** "500 рублей" gets no rouble reply as written. */
  lemma PlainRoublesMissed()
    ensures RubAmountText("500 рублей") == None
  {
  }

  /** The entry lists its alternatives separated by bars. */
  lemma RubAlternativesAreEntryFields()
    ensures Split(RubKeyword, '|') == RubAlternatives
  {
    assert Join(RubAlternatives, '|') == RubKeyword;
    JoinThenSplit(RubAlternatives, '|');
  }

  /** The first alternative, in table order, that occurs in the text. */
  function FirstMentioned(text: string, alternatives: seq<string>): (r: Option<nat>)
    ensures r.None? <==> forall i :: 0 <= i < |alternatives| ==> !Contains(text, alternatives[i])
    ensures r.Some? ==> r.value < |alternatives| && Contains(text, alternatives[r.value])
    ensures r.Some? ==> forall j :: 0 <= j < r.value ==> !Contains(text, alternatives[j])
  {
    if |alternatives| == 0 then None
    else if Contains(text, alternatives[0]) then Some(0)
    else
      match FirstMentioned(text, alternatives[1..])
      case None => None
      case Some(i) => Some(i + 1)
  }

  /** The rouble branch as evidently intended: when one of the alternatives
      occurs, the normalised text before the first occurrence of the first
      alternative (in table order) that occurs. */
  function RubAmountTextIntended(text: string): (r: Option<string>)
    ensures r.Some? <==> exists i :: 0 <= i < |RubAlternatives| && Contains(text, RubAlternatives[i])
    ensures r.Some? ==>
              exists i, k: nat ::
                && 0 <= i < |RubAlternatives|
                && FirstMentioned(text, RubAlternatives) == Some(i)
                && OccursAt(text, RubAlternatives[i], k)
                && (forall j :: 0 <= j < k ==> !OccursAt(text, RubAlternatives[i], j))
                && r.value == StripSeparators(text[..k])
  {
    match FirstMentioned(text, RubAlternatives)
    case None => None
    case Some(i) =>
      var field := FirstField(text, RubAlternatives[i]);
      NormaliseIsStrip(field);
      assert text[..|field|] == field;
      Some(NormaliseAmount(field))
  }

  lemma RoublesWordFound()
    ensures FirstMentioned("500 рублей", RubAlternatives) == Some(0)
  {
  }

  lemma RoublesWordField()
    ensures FirstField("500 рублей", RubAlternatives[0]) == "500 "
  {
    var text := "500 рублей";
    var word := RubAlternatives[0];
    assert OccursAt(text, word, 4);
    forall j | 0 <= j < 4 ensures !OccursAt(text, word, j) {
      assert text[j] != word[0];
    }
  }

  lemma AmountDigits()
    ensures StripSeparators("500 ") == "500"
  {
  }

  /** "500 рублей" gives the amount text "500". */
  lemma PlainRoublesRecognised()
    ensures RubAmountTextIntended("500 рублей") == Some("500")
  {
    RoublesWordFound();
    RoublesWordField();
    AmountDigits();
    NormaliseIsStrip("500 ");
  }
}
