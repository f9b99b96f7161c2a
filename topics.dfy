/**
 * Topic extraction from an article title: the list comprehension that keeps
 * the title-cased words of the title and strips `,` `.` `?` `!` from both
 * ends of each.
 */
module TopicExtraction {
  import opened Text

  /** The characters stripped from both ends of a topic. */
  const Punctuation: set<char> := {',', '.', '?', '!'}

  /** The comprehension over an already split title: title-cased words, in
      order, each stripped of punctuation. */
  function TopicsOf(words: seq<string>): seq<string>
  {
    if words == [] then []
    else
      var rest := TopicsOf(words[1..]);
      if IsTitle(words[0]) then [Strip(words[0], Punctuation)] + rest else rest
  }

  /** The topics of a title. */
  function Topics(title: string): seq<string>
  {
    TopicsOf(Split(title))
  }

  /** A topic is non-empty, has a letter, has no whitespace, and neither
      starts nor ends with punctuation. */
  predicate IsTopic(t: string)
  {
    && t != []
    && (exists k :: 0 <= k < |t| && IsLetter(t[k]))
    && NoSpace(t)
    && t[0] !in Punctuation
    && t[|t| - 1] !in Punctuation
  }

  /** Stripping a title-cased word that has no whitespace gives a topic. */
  lemma StrippedTitleIsTopic(w: string)
    requires IsTitle(w) && NoSpace(w)
    ensures IsTopic(Strip(w, Punctuation))
  {
    var k := TitleHasLetter(w);
    StripKeeps(w, Punctuation, k);
    StripEdges(w, Punctuation);
    var i, j := StripStart(w, Punctuation), StripEnd(w, Punctuation);
    var t := w[i..j];
    assert t == Strip(w, Punctuation);
    assert IsLetter(t[k - i]);
    assert t[0] == w[i] && t[|t| - 1] == w[j - 1];
    forall m | 0 <= m < |t| ensures !IsSpace(t[m]) { assert t[m] == w[i + m]; }
  }

  /** Every topic is well formed and there are no more topics than words. */
  lemma {:induction false} TopicsOfWellFormed(words: seq<string>)
    requires WellFormedWords(words)
    ensures |TopicsOf(words)| <= |words|
    ensures forall i :: 0 <= i < |TopicsOf(words)| ==> IsTopic(TopicsOf(words)[i])
  {
    if words != [] {
      TopicsOfWellFormed(words[1..]);
      if IsTitle(words[0]) {
        StrippedTitleIsTopic(words[0]);
      }
    }
  }

  /** The topics of any title are well formed, at most one per word. */
  lemma TopicsWellFormed(title: string)
    ensures |Topics(title)| <= |Split(title)|
    ensures forall i :: 0 <= i < |Topics(title)| ==> IsTopic(Topics(title)[i])
  {
    SplitWords(title);
    TopicsOfWellFormed(Split(title));
  }

  /** A string is a topic exactly when it is the stripped form of a
      title-cased word of the list. */
  lemma {:induction false} TopicsOfSelects(words: seq<string>, t: string)
    ensures t in TopicsOf(words) <==>
              exists w :: w in words && IsTitle(w) && Strip(w, Punctuation) == t
  {
    if words != [] {
      TopicsOfSelects(words[1..], t);
      if t in TopicsOf(words) && !(t in TopicsOf(words[1..])) {
        assert words[0] in words;
      }
      if exists w :: w in words[1..] && IsTitle(w) && Strip(w, Punctuation) == t {
        var w :| w in words[1..] && IsTitle(w) && Strip(w, Punctuation) == t;
        assert w in words;
      }
    }
  }

  /** The comprehension keeps the order of the words: the topics of two
      runs of words are those of the first run followed by those of the
      second. */
  lemma {:induction false} TopicsOfAppend(a: seq<string>, b: seq<string>)
    ensures TopicsOf(a + b) == TopicsOf(a) + TopicsOf(b)
  {
    if a != [] {
      assert (a + b)[1..] == a[1..] + b;
      TopicsOfAppend(a[1..], b);
    } else {
      assert a + b == b;
    }
  }

  /** A title is read word by word, in title order, whatever whitespace
      separates the words: the topics on either side of a whitespace
      character follow each other. */
  lemma TopicsAtSpace(a: string, c: char, b: string)
    requires IsSpace(c)
    ensures Topics(a + [c] + b) == Topics(a) + Topics(b)
  {
    SplitAtSpace(a, c, b);
    TopicsOfAppend(Split(a), Split(b));
  }

  /** A single word contributes its stripped form when it is title-cased,
      and nothing otherwise. */
  lemma TopicsOfWord(w: string)
    requires w != [] && NoSpace(w)
    ensures Topics(w) == if IsTitle(w) then [Strip(w, Punctuation)] else []
  {
    SplitWord(w);
    assert [w] == [w] + [];
    if IsTitle(w) {
      TopicsOfCons(w, Strip(w, Punctuation), [], []);
    } else {
      TopicsOfSkip(w, [], []);
    }
  }

  /** Every word of the title is kept when every word is title-cased. */
  lemma {:induction false} TopicsOfAllTitles(words: seq<string>)
    requires forall i :: 0 <= i < |words| ==> IsTitle(words[i])
    ensures |TopicsOf(words)| == |words|
    ensures forall i :: 0 <= i < |words| ==> TopicsOf(words)[i] == Strip(words[i], Punctuation)
  {
    if words != [] {
      TopicsOfAllTitles(words[1..]);
    }
  }

  /** A title-cased word in front contributes its stripped form in front. */
  lemma TopicsOfCons(w: string, t: string, rest: seq<string>, topics: seq<string>)
    requires IsTitle(w) && Strip(w, Punctuation) == t && TopicsOf(rest) == topics
    ensures TopicsOf([w] + rest) == [t] + topics
  {
    assert ([w] + rest)[1..] == rest;
  }

  /** A word that is not title-cased contributes nothing. */
  lemma TopicsOfSkip(w: string, rest: seq<string>, topics: seq<string>)
    requires !IsTitle(w) && TopicsOf(rest) == topics
    ensures TopicsOf([w] + rest) == topics
  {
    assert ([w] + rest)[1..] == rest;
  }

  /** A title written as space-separated words splits into those words. */
  lemma ExampleSplit(ws: seq<string>, title: string)
    requires WellFormedWords(ws) && Join(" ", ws) == title
    ensures Split(title) == ws
  {
    SplitJoin(ws);
  }

  // The worked example "Apple Reports Record Profit.", one word at a time
  // (each step is kept small so that the solver does not evaluate the
  // whole literal at once).

  lemma TitleApple() ensures IsTitle("Apple") {}
  lemma TitleReports() ensures IsTitle("Reports") {}
  lemma TitleRecord() ensures IsTitle("Record") {}
  lemma TitleProfit() ensures IsTitle("Profit.") {}

  lemma StripProfit()
    ensures Strip("Profit.", Punctuation) == "Profit"
  {
    assert LeadLen("Profit.", Punctuation) == 0;
    assert TrailLen("Profit.", Punctuation) == 1;
  }

  lemma AppleInFront(rest: seq<string>, topics: seq<string>)
    requires TopicsOf(rest) == topics
    ensures TopicsOf(["Apple"] + rest) == ["Apple"] + topics
  {
    TitleApple();
    StripUnchanged("Apple", Punctuation);
    TopicsOfCons("Apple", "Apple", rest, topics);
  }

  lemma ReportsInFront(rest: seq<string>, topics: seq<string>)
    requires TopicsOf(rest) == topics
    ensures TopicsOf(["Reports"] + rest) == ["Reports"] + topics
  {
    TitleReports();
    StripUnchanged("Reports", Punctuation);
    TopicsOfCons("Reports", "Reports", rest, topics);
  }

  lemma RecordInFront(rest: seq<string>, topics: seq<string>)
    requires TopicsOf(rest) == topics
    ensures TopicsOf(["Record"] + rest) == ["Record"] + topics
  {
    TitleRecord();
    StripUnchanged("Record", Punctuation);
    TopicsOfCons("Record", "Record", rest, topics);
  }

  lemma ProfitInFront(rest: seq<string>, topics: seq<string>)
    requires TopicsOf(rest) == topics
    ensures TopicsOf(["Profit."] + rest) == ["Profit"] + topics
  {
    TitleProfit();
    StripProfit();
    TopicsOfCons("Profit.", "Profit", rest, topics);
  }

  lemma ExampleRecordProfit()
    ensures TopicsOf(["Record", "Profit."]) == ["Record", "Profit"]
  {
    ProfitInFront([], []);
    assert ["Profit."] + [] == ["Profit."];
    RecordInFront(["Profit."], ["Profit"]);
  }

  lemma ExampleAppleReportsRecordProfit()
    ensures TopicsOf(["Apple", "Reports", "Record", "Profit."]) == ["Apple", "Reports", "Record", "Profit"]
  {
    ExampleRecordProfit();
    ReportsInFront(["Record", "Profit."], ["Record", "Profit"]);
    AppleInFront(["Reports", "Record", "Profit."], ["Reports", "Record", "Profit"]);
    assert ["Apple"] + ["Reports", "Record", "Profit."] == ["Apple", "Reports", "Record", "Profit."];
  }

  lemma ExampleAppleWellFormed()
    ensures WellFormedWords(["Apple", "Reports", "Record", "Profit."])
  {
  }

  lemma ExampleAppleJoin()
    ensures Join(" ", ["Apple", "Reports", "Record", "Profit."]) == "Apple Reports Record Profit."
  {
  }

  lemma ExampleAppleWords()
    ensures Split("Apple Reports Record Profit.") == ["Apple", "Reports", "Record", "Profit."]
  {
    ExampleAppleWellFormed();
    ExampleAppleJoin();
    ExampleSplit(["Apple", "Reports", "Record", "Profit."], "Apple Reports Record Profit.");
  }

  /** "Apple Reports Record Profit." gives the four words, the last without
      its period. */
  lemma ExampleAppleReports()
    ensures Topics("Apple Reports Record Profit.") == ["Apple", "Reports", "Record", "Profit"]
  {
    ExampleAppleWords();
    ExampleAppleReportsRecordProfit();
  }

  // A second example: "U.S. iPhone AI Sales". The abbreviation qualifies
  // and keeps its inner period; camel case and all capitals do not.

  lemma TitleAbbreviation() ensures IsTitle("U.S.") {}
  lemma NotTitleCamelCase() ensures !IsTitle("iPhone") {}
  lemma NotTitleCapitals() ensures !IsTitle("AI") {}
  lemma TitleSales() ensures IsTitle("Sales") {}

  lemma StripAbbreviation()
    ensures Strip("U.S.", Punctuation) == "U.S"
  {
    assert LeadLen("U.S.", Punctuation) == 0;
    assert TrailLen("U.S.", Punctuation) == 1;
  }

  lemma ExampleAbbreviationAiSales()
    ensures TopicsOf(["U.S.", "iPhone", "AI", "Sales"]) == ["U.S", "Sales"]
  {
    TitleSales();
    StripUnchanged("Sales", Punctuation);
    TopicsOfCons("Sales", "Sales", [], []);
    NotTitleCapitals();
    TopicsOfSkip("AI", ["Sales"], ["Sales"]);
    NotTitleCamelCase();
    TopicsOfSkip("iPhone", ["AI", "Sales"], ["Sales"]);
    TitleAbbreviation();
    StripAbbreviation();
    TopicsOfCons("U.S.", "U.S", ["iPhone", "AI", "Sales"], ["Sales"]);
  }

  lemma ExampleMixedWellFormed()
    ensures WellFormedWords(["U.S.", "iPhone", "AI", "Sales"])
  {
  }

  lemma ExampleMixedJoin()
    ensures Join(" ", ["U.S.", "iPhone", "AI", "Sales"]) == "U.S. iPhone AI Sales"
  {
  }

  lemma ExampleMixedWords()
    ensures Split("U.S. iPhone AI Sales") == ["U.S.", "iPhone", "AI", "Sales"]
  {
    ExampleMixedWellFormed();
    ExampleMixedJoin();
    ExampleSplit(["U.S.", "iPhone", "AI", "Sales"], "U.S. iPhone AI Sales");
  }

  lemma ExampleMixedCase()
    ensures Topics("U.S. iPhone AI Sales") == ["U.S", "Sales"]
  {
    ExampleMixedWords();
    ExampleAbbreviationAiSales();
  }
}
