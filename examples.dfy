/** Concrete messages run through the model, as worked examples of its lemmas. */
module Examples {
  import opened Wrappers
  import opened Text
  import opened Decimal
  import opened Parser

  lemma JoinFive(a: string, b: string, c: string, d: string, e: string)
    ensures Join([a, b, c, d, e], Separator)
         == a + [Separator] + (b + [Separator] + (c + [Separator] + (d + [Separator] + e)))
  {
    var sep := Separator;
    assert [d, e][1..] == [e];
    assert Join([d, e], sep) == d + [sep] + e;
    assert [c, d, e][1..] == [d, e];
    assert Join([c, d, e], sep) == c + [sep] + (d + [sep] + e);
    assert [b, c, d, e][1..] == [c, d, e];
    assert Join([b, c, d, e], sep) == b + [sep] + (c + [sep] + (d + [sep] + e));
    assert [a, b, c, d, e][1..] == [b, c, d, e];
  }

  lemma PiecesFive(a: string, b: string, c: string, d: string, e: string)
    requires Separator !in a && Separator !in b && Separator !in c && Separator !in d && Separator !in e
    ensures Pieces(a + [Separator] + (b + [Separator] + (c + [Separator] + (d + [Separator] + e))), [a, b, c, d, e])
  {
    JoinFive(a, b, c, d, e);
  }

  lemma StripExample(left: string, t: string, right: string, s: string)
    requires AllSpace(left) && AllSpace(right) && t != [] && !IsSpace(t[0]) && !IsSpace(t[|t| - 1])
    requires s == left + t + right
    ensures Trim(s) == t
  {
    TrimPadded(left, t, right);
  }

  lemma StripDescription() ensures Trim(" Groceries ") == "Groceries"
  {
    StripExample(" ", "Groceries", " ", " Groceries ");
  }

  lemma StripAmount() ensures Trim(" 45,90 ") == "45,90"
  {
    StripExample(" ", "45,90", " ", " 45,90 ");
  }

  lemma StripPayment() ensures Trim(" credito") == "credito"
  {
    StripExample(" ", "credito", "", " credito");
  }

  lemma ReadGroceries()
    ensures ReadFields("Groceries", "45,90", "credito") == Success(Fields("Groceries", 45.9, "credito"))
  {
    assert Replace("45,90", ',', '.') == "45.90";
    ExampleAmount();
  }

  lemma GroceriesText()
    ensures "#F " + "|" + (" Groceries " + "|" + (" 45,90 " + "|" + (" x " + "|" + " credito")))
         == "#F | Groceries | 45,90 | x | credito"
    ensures Separator !in "#F " && Separator !in " Groceries " && Separator !in " 45,90 "
    ensures Separator !in " x " && Separator !in " credito"
  {
  }

  lemma GroceriesPieces()
    ensures Pieces("#F | Groceries | 45,90 | x | credito", ["#F ", " Groceries ", " 45,90 ", " x ", " credito"])
  {
    GroceriesText();
    PiecesFive("#F ", " Groceries ", " 45,90 ", " x ", " credito");
  }

  /** A message in the documented format, with a decimal comma. */
  lemma ExampleGroceries()
    ensures ParseMessage("#F | Groceries | 45,90 | x | credito")
         == Success(Fields("Groceries", 45.9, "credito"))
  {
    GroceriesPieces();
    FieldsByPosition("#F | Groceries | 45,90 | x | credito", ["#F ", " Groceries ", " 45,90 ", " x ", " credito"]);
    StripDescription();
    StripAmount();
    StripPayment();
    ReadGroceries();
  }

  lemma StripMixed() ensures Trim("1,2.3") == "1,2.3"
  {
    StripExample("", "1,2.3", "", "1,2.3");
  }

  lemma CountMixed() ensures Count("1,2.3", ',') == 1 && Count("1,2.3", '.') == 1
  {
  }

  lemma MixedPieces()
    ensures Pieces("#F|Lunch|1,2.3|x|debito", ["#F", "Lunch", "1,2.3", "x", "debito"])
  {
    PiecesFive("#F", "Lunch", "1,2.3", "x", "debito");
    assert "#F" + "|" + ("Lunch" + "|" + ("1,2.3" + "|" + ("x" + "|" + "debito"))) == "#F|Lunch|1,2.3|x|debito";
  }

  /** An amount that mixes a comma and a point is not a number. */
  lemma ExampleMixedSeparators()
    ensures ParseMessage("#F|Lunch|1,2.3|x|debito") == Failure(InvalidAmount)
  {
    MixedPieces();
    StripMixed();
    CountMixed();
    TwoSeparatorsRejected("#F|Lunch|1,2.3|x|debito", ["#F", "Lunch", "1,2.3", "x", "debito"]);
  }
}
