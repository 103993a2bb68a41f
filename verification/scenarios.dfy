/** Worked examples of the extraction on concrete model replies. */
module Scenarios {
  import opened Wrappers
  import opened Text
  import opened Extractor

  /** The reply `Restaurants:\n1. A\n2. B\nBreakfast:\n1. C\n`, line by line:
      two restaurants and one breakfast, ending in a line break. */
  const Reply: string := "Restaurants:\n" + "1. A\n" + "2. B\n" + "Breakfast:\n" + "1. C\n"

  /** Where the reply's colons and line breaks are. */
  lemma ReplyLayout()
    ensures |Reply| == 39
    ensures forall k :: 0 <= k < |Reply| && Reply[k] == ':' ==> k == 11 || k == 32
    ensures forall k :: 0 <= k < |Reply| && Reply[k] == '\n' ==> k == 12 || k == 17 || k == 22 || k == 33 || k == 38
  {
    var h1, l1, l2, h2, l3 := "Restaurants:\n", "1. A\n", "2. B\n", "Breakfast:\n", "1. C\n";
    assert ':' !in l1 && ':' !in l2 && ':' !in l3;
    assert forall k :: 0 <= k < |h1| && h1[k] == ':' ==> k == 11;
    assert forall k :: 0 <= k < |h2| && h2[k] == ':' ==> k == 9;
    assert forall k :: 0 <= k < |h1| && h1[k] == '\n' ==> k == 12;
    assert forall k :: 0 <= k < |h2| && h2[k] == '\n' ==> k == 10;
    assert forall k :: 0 <= k < 5 && l1[k] == '\n' ==> k == 4;
    assert forall k :: 0 <= k < 5 && l2[k] == '\n' ==> k == 4;
    assert forall k :: 0 <= k < 5 && l3[k] == '\n' ==> k == 4;
  }

  /** No header of `name` starts where the first letters differ beyond case. */
  lemma NoHeaderWhereFirstLetterDiffers(text: string, name: string, i: nat)
    requires |name| > 0 && i < |text| && FoldCase(text[i]) != FoldCase(name[0])
    ensures !HeaderAt(text, name, i)
  {
    if i + |name| + 2 <= |text| {
      assert text[i..i + |name| + 2][0] == text[i];
      assert (name + ":\n")[0] == name[0];
    }
  }

  /** A word character is not whitespace. */
  lemma WordCharIsNoSpace(c: char)
    requires IsWordChar(c)
    ensures !IsSpace(c)
  {
  }

  /** An enumerated line `d. x` with a one-letter text gives that letter. */
  lemma OneLetterItem(line: string, d: char, x: char)
    requires line == [d, '.', ' ', x] && IsWordChar(d) && IsWordChar(x)
    ensures Items([line]) == [[x]]
  {
    WordCharIsNoSpace(d);
    WordCharIsNoSpace(x);
    ItemsOfLine(line);
    assert !AllSpace(line) by { assert !IsSpace(line[0]); }
    assert line == [d, '.', ' '] + [x];
    EnumeratedLineGivesItem([d, '.', ' '], [x]);
    StripIsUnique([x], 0, 1);
    assert [x][0..1] == [x];
    assert CleanItem(line) == [x];
  }

  /** Two such lines, one after the other, give their two letters. */
  lemma TwoOneLetterItems(a: string, b: string, d: char, x: char, e: char, y: char)
    requires a == [d, '.', ' ', x] && IsWordChar(d) && IsWordChar(x)
    requires b == [e, '.', ' ', y] && IsWordChar(e) && IsWordChar(y)
    ensures Items(Split(a + ['\n'] + b, '\n')) == [[x], [y]]
  {
    var lines := [a, b];
    assert lines == [a] + [b];
    JoinAppend([a], [b], '\n');
    assert Join([a], '\n') == a && Join([b], '\n') == b;
    assert Join(lines, '\n') == a + ['\n'] + b;
    SplitJoin(lines, '\n');
    assert Split(a + ['\n'] + b, '\n') == lines;
    ItemsAppend([a], [b]);
    OneLetterItem(a, d, x);
    OneLetterItem(b, e, y);
    assert Items(lines) == [[x]] + [[y]];
    SingletonsConcat([x], [y]);
  }

  lemma SingletonsConcat<T>(u: T, v: T)
    ensures [u] + [v] == [u, v]
  {
  }

  lemma RestaurantsHeaderOfReply()
    ensures HeaderAt(Reply, "Restaurants", 0)
  {
    assert Reply[0..13] == "Restaurants:\n";
  }

  /** The line break before `Breakfast:` closes the restaurants. */
  lemma BreakfastLineIsTerminator()
    ensures TerminatorAt(Reply, 22)
  {
    assert Reply[32] == ':';
    assert forall m :: 23 <= m < 32 ==> IsWordChar(Reply[m]);
    assert WordColonAt(Reply, 23);
  }

  /** The line break before `2. B` does not: `2.` is not a word and a colon. */
  lemma SecondLineIsNoTerminator()
    ensures !TerminatorAt(Reply, 17)
  {
    assert Reply[18] == '2' && Reply[19] == '.';
  }

  lemma RestaurantsBlockOfReply()
    ensures |Reply| >= 22 && Reply[13..22] == "1. A\n2. B"
  {
  }

  /** The worked example's restaurants: the two lines before `Breakfast:`. */
  lemma RestaurantsOfReply()
    ensures ExtractList(Reply, Restaurants) == ["A", "B"]
  {
    ReplyLayout();
    RestaurantsHeaderOfReply();
    BreakfastLineIsTerminator();
    SecondLineIsNoTerminator();
    CaptureBetween(Reply, "Restaurants", 0, 22);
    RestaurantsBlockOfReply();
    assert Reply[13..22] == "1. A" + ['\n'] + "2. B";
    TwoOneLetterItems("1. A", "2. B", '1', 'A', '2', 'B');
    assert Capture(Reply, Restaurants.Label()) == Some(Reply[13..22]);
    assert [['A'], ['B']] == ["A", "B"];
  }

  /** A header can only sit just before one of the reply's two colons, so a
      name whose first letter differs from the letter there has no header. */
  lemma NoHeaderOfReply(name: string, i: nat)
    requires |name| > 0
    requires i + |name| == 11 || i + |name| == 32 ==> i < |Reply| && FoldCase(Reply[i]) != FoldCase(name[0])
    ensures !HeaderAt(Reply, name, i)
  {
    ReplyLayout();
    if HeaderAt(Reply, name, i) {
      HeaderShape(Reply, name, i);
      NoHeaderWhereFirstLetterDiffers(Reply, name, i);
      assert false;
    }
  }

  /** A line that is `d. x` alone gives that letter. */
  lemma OneLineItems(block: string, d: char, x: char)
    requires block == [d, '.', ' ', x] && IsWordChar(d) && IsWordChar(x)
    ensures Items(Split(block, '\n')) == [[x]]
  {
    assert Join([block], '\n') == block;
    SplitJoin([block], '\n');
    OneLetterItem(block, d, x);
  }

  lemma BreakfastHeaderOfReply()
    ensures HeaderAt(Reply, "Breakfast", 23)
  {
    assert Reply[23..34] == "Breakfast:\n";
  }

  lemma BreakfastBlockOfReply()
    ensures |Reply| == 39 && Reply[38] == '\n' && Reply[34..38] == "1. C"
  {
  }

  /** The worked example's breakfast: the one line after `Breakfast:`, closed
      by the final line break. */
  lemma BreakfastOfReply()
    ensures ExtractList(Reply, Breakfast) == ["C"]
  {
    ReplyLayout();
    BreakfastHeaderOfReply();
    forall i: nat | i < 23 ensures !HeaderAt(Reply, "Breakfast", i) {
      NoHeaderOfReply("Breakfast", i);
    }
    BreakfastBlockOfReply();
    assert TerminatorAt(Reply, 38) by { assert EndAt(Reply, 39); }
    CaptureBetween(Reply, "Breakfast", 23, 38);
    OneLineItems(Reply[34..38], '1', 'C');
    assert Capture(Reply, Breakfast.Label()) == Some(Reply[34..38]);
    assert [['C']] == ["C"];
  }

  /** The worked example has no dinner section. */
  lemma DinnerOfReply()
    ensures ExtractList(Reply, Dinner) == []
  {
    forall i: nat ensures !HeaderAt(Reply, Dinner.Label(), i) {
      NoHeaderOfReply("Dinner", i);
    }
    MissingHeaderGivesNothing(Reply, Dinner);
  }

  /** The worked example has no workouts section. */
  lemma WorkoutsOfReply()
    ensures ExtractList(Reply, Workouts) == []
  {
    forall i: nat ensures !HeaderAt(Reply, Workouts.Label(), i) {
      NoHeaderOfReply("Workouts", i);
    }
    MissingHeaderGivesNothing(Reply, Workouts);
  }

  /** The whole worked example as the result page receives it. */
  lemma RenderedReply(region: string)
    ensures Render(Reply, region) == Recommendation(["A", "B"], ["C"], [], [], region)
  {
    RestaurantsOfReply();
    BreakfastOfReply();
    DinnerOfReply();
    WorkoutsOfReply();
  }

  /** A reply whose last section ends without a line break, and the same reply
      with one. */
  const Unterminated: string := "Workouts:\n" + "1. X"
  const Terminated: string := Unterminated + "\n"

  lemma UnterminatedLayout()
    ensures |Unterminated| == 14 && Unterminated[13] == 'X'
    ensures HeaderAt(Unterminated, "Workouts", 0)
    ensures forall k :: 0 <= k < |Unterminated| && Unterminated[k] == ':' ==> k == 8
  {
    assert Unterminated[0..10] == "Workouts:\n";
  }

  /** Without the final line break the last section is lost: the lazy group
      finds no line break that closes it. */
  lemma LastSectionNeedsLineBreak()
    ensures ExtractList(Unterminated, Workouts) == []
  {
    UnterminatedLayout();
    forall j: nat | j < |Unterminated| && Unterminated[j] == '\n'
      ensures !WordColonAt(Unterminated, j + 1)
    {
    }
    UnterminatedSectionGivesNothing(Unterminated, Workouts, 0);
  }

  /** With it, the section's one line is extracted. */
  lemma LastSectionWithLineBreak()
    ensures ExtractList(Terminated, Workouts) == ["X"]
  {
    UnterminatedLayout();
    assert Terminated[0..10] == Unterminated[0..10];
    assert Terminated[10..14] == "1. X";
    assert TerminatorAt(Terminated, 14) by { assert EndAt(Terminated, 15); }
    CaptureBetween(Terminated, "Workouts", 0, 14);
    OneLineItems(Terminated[10..14], '1', 'X');
    assert Capture(Terminated, Workouts.Label()) == Some(Terminated[10..14]);
    assert [['X']] == ["X"];
  }
}
