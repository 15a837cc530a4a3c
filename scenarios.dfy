/** Concrete transcripts and what the parser model gives for them: a sentence with an
    amount, a cue, a known category and "yesterday"; one that falls back to
    the "for ..." phrase; and one whose phrase ends the sentence, which the
    pattern does not capture because its `$` alternative follows a space. */
module Scenarios {
  import opened Options
  import opened Strings
  import opened Dates
  import opened Entries
  import opened Parser

  const Sample: string := "spent 500 on food yesterday"

  lemma SampleAmount()
    ensures AmountSpan(Sample) == Some((6, 9)) && DigitsValue(Sample[6..9]) == 500
  {
    SampleFirstDigit();
    SampleDigitRun();
    SampleDigits();
  }

  lemma SampleFirstDigit()
    ensures FirstDigitFrom(Sample, 0) == Some(6)
  {
    assert IsDigit(Sample[6]);
    assert FirstDigitFrom(Sample, 6) == Some(6);
    assert FirstDigitFrom(Sample, 5) == Some(6);
    assert FirstDigitFrom(Sample, 4) == Some(6);
    assert FirstDigitFrom(Sample, 3) == Some(6);
    assert FirstDigitFrom(Sample, 2) == Some(6);
    assert FirstDigitFrom(Sample, 1) == Some(6);
  }

  lemma SampleDigitRun()
    ensures DigitRunEnd(Sample, 6) == 9
  {
    assert DigitRunEnd(Sample, 9) == 9;
    assert DigitRunEnd(Sample, 8) == 9;
    assert DigitRunEnd(Sample, 7) == 9;
  }

  lemma SampleDigits()
    ensures DigitsValue(Sample[6..9]) == 500
  {
    assert Sample[6..9] == "500";
    var d := Sample[6..9];
    assert d[..2] == "50" && "50"[..1] == "5" && "5"[..0] == "";
    assert DigitsValue("5") == 5;
    assert DigitsValue("50") == 50;
  }

  lemma SampleKind()
    ensures HasCue(Sample, ExpenseCues)
  {
    assert OccursAt(Sample, "spent", 0);
    assert Includes(Sample, ExpenseCues[2]);
  }

  lemma SampleCategory()
    ensures FindCategory(Sample, ["Food", "Rent"]) == Some(0)
  {
    assert ToLower("Food") == "food";
    assert OccursAt(Sample, "food", 13);
  }

  lemma SampleDate()
    ensures Includes(Sample, "yesterday")
    ensures FormatIso(PrevDay(Date(2024, 3, 1))) == "2024-02-29"
  {
    assert OccursAt(Sample, "yesterday", 18);
    assert PrevDay(Date(2024, 3, 1)) == Date(2024, 2, 29);
    LeapDayText();
  }

  lemma LeapDayText()
    ensures FormatIso(Date(2024, 2, 29)) == "2024-02-29"
  {
    var y, m, d := FixedDigits(2024, 4), FixedDigits(2, 2), FixedDigits(29, 2);
    assert y == "2024";
    assert m == "02";
    assert d == "29";
  }

  lemma SampleParse(form: Form)
    ensures var r := ParseNaturalLanguage(Sample, ["Food", "Rent"], form, Date(2024, 3, 1));
      r.amount == 500 && r.kind == Expense && r.category == "Food" && r.date == "2024-02-29" &&
      r.customCategory == form.customCategory && r.description == form.description
  {
    SampleAmount();
    SampleKind();
    SampleCategory();
    SampleDate();
  }

  const Custom: string := "paid 200 for car wash at shell"

  lemma CustomLeftmost()
    ensures OccursAt(Custom, "for ", 9)
    ensures forall q :: 0 <= q < 9 ==> !OccursAt(Custom, "for ", q)
  {
    assert Custom[9..13] == "for ";
    forall q | 0 <= q < 9 ensures !OccursAt(Custom, "for ", q) {
      assert Custom[..9] == "paid 200 ";
      assert Custom[q] in Custom[..9];
      assert Custom[q] != 'f';
      assert Custom[q..q + 4][0] == Custom[q];
    }
  }

  lemma CustomCloses()
    ensures ClosesAt(Custom, 21)
    ensures forall j :: 13 <= j < 21 ==> !ClosesAt(Custom, j)
  {
    assert OccursAt(Custom, "at", 22);
    assert Custom[13] != ' ' && Custom[14] != ' ' && Custom[15] != ' ';
    assert Custom[17] != ' ' && Custom[18] != ' ' && Custom[19] != ' ' && Custom[20] != ' ';
    forall j | 13 <= j < 21 ensures !ClosesAt(Custom, j) {
      if j == 16 {
        assert Custom[17] == 'w';
      } else {
        assert j in {13, 14, 15, 17, 18, 19, 20};
      }
    }
  }

  lemma CustomGroup()
    ensures CustomMatchFrom(Custom, 0) == Some((9, 21))
  {
    CustomLeftmost();
    CustomCloses();
    assert LazyGroupEnd(Custom, 13, 13) == Some(21);
    assert MatchesAt(Custom, 9);
  }

  /** A word with a letter the text lacks does not occur in it. */
  lemma AbsentByChar(s: string, w: string, k: nat)
    requires k < |w| && w[k] !in s
    ensures !Includes(s, w)
  {
    forall i: nat | i <= |s| ensures !OccursAt(s, w, i) {
      if i + |w| <= |s| {
        assert s[i..i + |w|][k] == s[i + k];
      }
    }
  }

  lemma CustomKindAndDate()
    ensures HasCue(Custom, ExpenseCues)
    ensures !Includes(Custom, "yesterday") && !Includes(Custom, "tomorrow")
  {
    CustomKind();
    CustomNoYesterday();
    CustomNoTomorrow();
  }

  lemma CustomKind()
    ensures HasCue(Custom, ExpenseCues)
  {
    assert OccursAt(Custom, "paid", 0);
    assert Includes(Custom, ExpenseCues[4]);
  }

  lemma CustomNoYesterday()
    ensures !Includes(Custom, "yesterday")
  {
    assert 'y' !in Custom;
    AbsentByChar(Custom, "yesterday", 0);
  }

  lemma CustomNoTomorrow()
    ensures !Includes(Custom, "tomorrow")
  {
    assert 'm' !in Custom;
    AbsentByChar(Custom, "tomorrow", 2);
  }

  lemma CustomPhraseValue()
    ensures CustomPhrase(Custom) == Some("car wash")
  {
    CustomGroup();
    CarWashSlice();
    PhraseOfMatch(Custom, 9, 21, "car wash");
    TrimCarWash();
  }

  lemma PhraseOfMatch(text: string, p: nat, e: nat, g: string)
    requires CustomMatchFrom(text, 0) == Some((p, e))
    requires p + 4 <= e <= |text| && text[p + 4..e] == g
    ensures CustomPhrase(text) == Some(Trim(g))
  {
    var m := CustomMatchFrom(text, 0);
    assert m.value.0 + 4 == p + 4 && m.value.1 == e;
    assert text[m.value.0 + 4..m.value.1] == g;
  }

  lemma CarWashSlice()
    ensures |Custom| == 30 && Custom[13..21] == "car wash"
  {
  }

  lemma TrimCarWash()
    ensures Trim("car wash") == "car wash"
  {
    var g := "car wash";
    assert LeadingSpace(g) == 0 by {
      assert !IsJsSpace(g[0]);
    }
    assert g[0..] == g;
    assert TrailingSpace(g) == 0 by {
      assert !IsJsSpace(g[7]);
    }
    assert g[0..|g|] == g;
  }

  lemma CustomParse(form: Form)
    ensures var r := ParseNaturalLanguage(Custom, [], form, Date(2024, 3, 1));
      r.kind == Expense && r.category == "custom" &&
      r.customCategory == "car wash" && r.customShown && r.date == form.date
  {
    CustomPhraseValue();
    CustomKindAndDate();
  }

  const EndPhrase: string := "paid 50 for coffee"

  /** After "for " nothing but "coffee" follows: no space to close the group. */
  lemma EndPhraseOpenGroup()
    ensures LazyGroupEnd(EndPhrase, 12, 12).None?
  {
    var t := EndPhrase;
    assert t[12..] == "coffee";
    forall k | 12 <= k < |t| ensures t[k] != ' ' {
      assert t[k] in t[12..];
    }
  }

  lemma EndPhraseNeedsTrailingSpace()
    ensures CustomPhrase(EndPhrase) == None
  {
    var t := EndPhrase;
    assert t[..8] == "paid 50 ";
    EndPhraseOpenGroup();
    forall p | 0 <= p <= |t| ensures !MatchesAt(t, p) {
      if p < 8 {
        assert t[p] in t[..8];
        assert t[p..p + 4][0] == t[p];
      } else if 8 < p && p + 4 <= |t| {
        assert t[p..p + 4][3] == t[p + 3];
      }
    }
  }
}
