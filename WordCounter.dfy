/**
 * The word-counter page of src/app/word-counter/page.tsx: its word count,
 * the list of modification steps the user edits, and the handlers that
 * change the page state. Rendering, toasts and the clipboard are not
 * modelled; the clock (`Date.now()`) and the outcome of the remote
 * `modifyText` call are parameters of the handlers that use them.
 */
module WordCounter {
  import opened Builtins
  import TextStats

  /** One requested transformation; `kind` is the source's `type`. */
  datatype Modification = Modification(id: int, kind: string, length: string)

  /** `keyof Omit<Modification, 'id'>`. */
  datatype ModificationField = TypeField | LengthField

  /** What the remote call receives for each step: the record without its id. */
  datatype ModificationStep = ModificationStep(kind: string, length: string)

  datatype ModifyTextInput = ModifyTextInput(text: string, modifications: seq<ModificationStep>)

  /** The list the page starts with. */
  const InitialModifications: seq<Modification> := [Modification(1, "changeLength", "100")]

  // ---------------------------------------------------------------------
  // Word count

  /**
   * `getWordCount`: 0 for a blank text, otherwise the number of maximal
   * runs of non-whitespace characters (`trim().split(/\s+/).length`).
   */
  function GetWordCount(str: string): (n: nat)
    ensures IsBlank(str) ==> n == 0
    ensures !IsBlank(str) ==> n >= 1
    ensures n == RunCount(str)
  {
    var t := Trim(str);
    RunCountTrim(str);
    if t == "" then
      RunCountOfBlank(str, true);
      0
    else
      SplitOfTrimmedHasNoEmptyField(t);
      FilterKeepsAll(Split(t), IsNonEmpty);
      SplitCountsRuns(t);
      RunCountPositive(str);
      |Split(t)|
  }

  /** What the cleared texts count: no words. */
  lemma EmptyTextHasNoWords()
    ensures GetWordCount("") == 0
  {
    assert IsBlank("");
  }

  /** The page's count and the analyzer's word list agree on every text. */
  lemma WordCountAgreesWithAnalyzer(str: string)
    ensures GetWordCount(str) == |TextStats.Tokenize(str)|
  {
  }

  /** The words of the end-to-end test's sample sentence. */
  const SampleWords: seq<string> :=
    ["This", "is", "a", "sample", "text", "to", "test", "the", "word", "counter", "functionality."]

  /** The end-to-end test's sample sentence counts eleven words. */
  lemma SampleSentenceWordCount(text: string)
    requires text == "This is a sample text to test the word counter functionality."
    ensures GetWordCount(text) == 11
  {
    SampleSentenceIsJoin(text);
    JoinedSampleWordCount();
  }

  lemma JoinedSampleWordCount()
    ensures GetWordCount(JoinWithSpaces(SampleWords)) == 11
  {
    forall i | 0 <= i < |SampleWords| ensures |SampleWords[i]| > 0 && HasNoWhitespace(SampleWords[i]) {
    }
    RunCountOfJoin(SampleWords);
  }

  /** The sample sentence is its words joined by single spaces, taken in three pieces. */
  lemma SampleSentenceIsJoin(text: string)
    requires text == "This is a sample text to test the word counter functionality."
    ensures JoinWithSpaces(SampleWords) == text
  {
    SampleHead(text);
    SampleTail(text);
    SampleFromPieces(text);
    SampleWordsJoin();
  }

  lemma SampleWordsJoin()
    ensures JoinWithSpaces(SampleWords)
      == ("This is a sample" + " ") + (("text to test the" + " ") + "word counter functionality.")
  {
    var a, b, c := SampleWords[..4], SampleWords[4..8], SampleWords[8..];
    assert SampleWords == a + (b + c);
    JoinAppend(a, b + c);
    JoinAppend(b, c);
    JoinFirstPiece(a);
    JoinSecondPiece(b);
    JoinThirdPiece(c);
  }

  lemma JoinFirstPiece(a: seq<string>)
    requires a == ["This", "is", "a", "sample"]
    ensures JoinWithSpaces(a) == "This is a sample"
  {
    assert JoinWithSpaces(a[3..]) == "sample";
    assert JoinWithSpaces(a[2..]) == "a" + " " + "sample";
    assert JoinWithSpaces(a[1..]) == "is" + " " + ("a" + " " + "sample");
  }

  lemma JoinSecondPiece(b: seq<string>)
    requires b == ["text", "to", "test", "the"]
    ensures JoinWithSpaces(b) == "text to test the"
  {
    assert JoinWithSpaces(b[3..]) == "the";
    assert JoinWithSpaces(b[2..]) == "test" + " " + "the";
    assert JoinWithSpaces(b[1..]) == "to" + " " + ("test" + " " + "the");
  }

  lemma JoinThirdPiece(c: seq<string>)
    requires c == ["word", "counter", "functionality."]
    ensures JoinWithSpaces(c) == "word counter functionality."
  {
    assert JoinWithSpaces(c[2..]) == "functionality.";
    assert JoinWithSpaces(c[1..]) == "counter" + " " + "functionality.";
  }

  lemma SampleHead(text: string)
    requires text == "This is a sample text to test the word counter functionality."
    ensures text[..34] == "This is a sample text to test the "
  {
  }

  lemma SampleTail(text: string)
    requires text == "This is a sample text to test the word counter functionality."
    ensures text[34..] == "word counter functionality."
  {
  }

  lemma SampleFirstCut(p: string)
    requires p == "This is a sample text to test the "
    ensures p[..17] == "This is a sample" + " " && p[17..] == "text to test the" + " "
  {
  }

  lemma SampleFromPieces(text: string)
    requires |text| >= 34
    requires text[..34] == "This is a sample text to test the "
    requires text[34..] == "word counter functionality."
    ensures text == ("This is a sample" + " ") + (("text to test the" + " ") + "word counter functionality.")
  {
    var p := text[..34];
    SampleFirstCut(p);
    assert text == p + text[34..];
    assert p == p[..17] + p[17..];
  }

  // ---------------------------------------------------------------------
  // The modification list

  predicate UniqueIds(mods: seq<Modification>) {
    forall i, j :: 0 <= i < j < |mods| ==> mods[i].id != mods[j].id
  }

  predicate HasId(mods: seq<Modification>, id: int) {
    exists i :: 0 <= i < |mods| && mods[i].id == id
  }

  /** `{ ...mod, [field]: value }`. */
  function WithField(mod: Modification, field: ModificationField, value: string): Modification {
    match field
    case TypeField => mod.(kind := value)
    case LengthField => mod.(length := value)
  }

  /**
   * The list `handleModificationChange` stores: same length and order,
   * records with another id untouched, and in records with the id only the
   * named field replaced.
   */
  function ModificationsChanged(mods: seq<Modification>, id: int, field: ModificationField, value: string): (r: seq<Modification>)
    ensures |r| == |mods|
    ensures forall i :: 0 <= i < |mods| && mods[i].id != id ==> r[i] == mods[i]
    ensures forall i :: 0 <= i < |mods| && mods[i].id == id ==>
      && r[i].id == id
      && (field == TypeField ==> r[i].kind == value && r[i].length == mods[i].length)
      && (field == LengthField ==> r[i].length == value && r[i].kind == mods[i].kind)
  {
    seq(|mods|, i requires 0 <= i < |mods| => if mods[i].id == id then WithField(mods[i], field, value) else mods[i])
  }

  /** The list `addModification` stores: one new `summarize` step with no length at the end. */
  function ModificationsAdded(mods: seq<Modification>, now: int): (r: seq<Modification>)
    ensures |r| == |mods| + 1 && r[..|mods|] == mods
    ensures r[|mods|] == Modification(now, "summarize", "")
  {
    mods + [Modification(now, "summarize", "")]
  }

  /** A fresh clock value keeps the ids unique. */
  lemma AddKeepsIdsUnique(mods: seq<Modification>, now: int)
    requires UniqueIds(mods) && !HasId(mods, now)
    ensures UniqueIds(ModificationsAdded(mods, now))
  {
    var r := ModificationsAdded(mods, now);
    forall i, j | 0 <= i < j < |r| ensures r[i].id != r[j].id {
      if j == |mods| {
        assert r[i] == mods[i];
      } else {
        assert r[i] == mods[i] && r[j] == mods[j];
      }
    }
  }

  function KeepsOtherIds(id: int): Modification -> bool {
    (mod: Modification) => mod.id != id
  }

  /**
   * The list `removeModification` stores: the original records without
   * those carrying the id, in the original order.
   */
  function ModificationsRemoved(mods: seq<Modification>, id: int): (r: seq<Modification>)
    ensures |r| <= |mods|
    ensures forall i :: 0 <= i < |r| ==> r[i].id != id
    ensures IsSubsequence(r, mods)
    ensures forall m :: multiset(r)[m] == if m.id == id then 0 else multiset(mods)[m]
  {
    FilterIsSubsequence(mods, KeepsOtherIds(id));
    FilterMultiplicity(mods, KeepsOtherIds(id));
    Filter(mods, KeepsOtherIds(id))
  }

  lemma {:induction false} RemoveFromUnique(mods: seq<Modification>, id: int)
    requires UniqueIds(mods)
    ensures |ModificationsRemoved(mods, id)| == |mods| - (if HasId(mods, id) then 1 else 0)
    decreases |mods|
  {
    if |mods| > 0 {
      var tail := mods[1..];
      UniqueTail(mods);
      HasIdOfTail(mods, id);
      RemoveFromUnique(tail, id);
      assert |ModificationsRemoved(mods, id)| == |ModificationsRemoved(tail, id)| + (if mods[0].id == id then 0 else 1);
    }
  }

  lemma UniqueTail(mods: seq<Modification>)
    requires |mods| > 0 && UniqueIds(mods)
    ensures UniqueIds(mods[1..])
    ensures !HasId(mods[1..], mods[0].id)
  {
    var tail := mods[1..];
    forall i, j | 0 <= i < j < |tail| ensures tail[i].id != tail[j].id {
      assert tail[i] == mods[i + 1] && tail[j] == mods[j + 1];
    }
    forall i | 0 <= i < |tail| ensures tail[i].id != mods[0].id {
      assert tail[i] == mods[i + 1];
    }
  }

  lemma HasIdOfTail(mods: seq<Modification>, id: int)
    requires |mods| > 0
    ensures HasId(mods, id) <==> mods[0].id == id || HasId(mods[1..], id)
  {
    var tail := mods[1..];
    if HasId(mods, id) && mods[0].id != id {
      var i :| 0 <= i < |mods| && mods[i].id == id;
      assert tail[i - 1] == mods[i];
    }
    if HasId(tail, id) {
      var i :| 0 <= i < |tail| && tail[i].id == id;
      assert mods[i + 1] == tail[i];
    }
  }

  /** Removing steps keeps the ids unique. */
  lemma RemovedKeepsIdsUnique(mods: seq<Modification>, id: int)
    requires UniqueIds(mods)
    ensures UniqueIds(ModificationsRemoved(mods, id))
  {
    SubsequenceKeepsIdsUnique(ModificationsRemoved(mods, id), mods);
  }

  /** Changing a field of a step keeps every id, so the ids stay unique. */
  lemma ChangedKeepsIdsUnique(mods: seq<Modification>, id: int, field: ModificationField, value: string)
    requires UniqueIds(mods)
    ensures UniqueIds(ModificationsChanged(mods, id, field, value))
  {
    var r := ModificationsChanged(mods, id, field, value);
    forall i, j | 0 <= i < j < |r| ensures r[i].id != r[j].id {
      assert r[i].id == mods[i].id && r[j].id == mods[j].id;
    }
  }

  /** A selection of steps with unique ids has unique ids. */
  lemma {:induction false} SubsequenceKeepsIdsUnique(a: seq<Modification>, b: seq<Modification>)
    requires IsSubsequence(a, b) && UniqueIds(b)
    ensures UniqueIds(a)
    decreases |b|
  {
    if |a| > 0 {
      UniqueTail(b);
      if a[0] == b[0] {
        var rest := a[1..];
        SubsequenceKeepsIdsUnique(rest, b[1..]);
        SubsequenceElements(rest, b[1..]);
        forall i, j | 0 <= i < j < |a| ensures a[i].id != a[j].id {
          assert a[j] == rest[j - 1] && a[j] in b[1..];
          if i > 0 {
            assert a[i] == rest[i - 1];
          }
        }
      } else {
        SubsequenceKeepsIdsUnique(a, b[1..]);
      }
    }
  }

  /**
   * The remove button is rendered only while the list has more than one
   * entry, and removes that entry's id; with unique ids such a removal
   * never empties the list.
   */
  lemma UiRemovalKeepsOneModification(mods: seq<Modification>, id: int)
    requires |mods| > 1 && UniqueIds(mods) && HasId(mods, id)
    ensures |ModificationsRemoved(mods, id)| == |mods| - 1 >= 1
  {
    RemoveFromUnique(mods, id);
  }

  /** Ids come from the clock, and two steps added in the same millisecond share one. */
  lemma DuplicateIdsLetUiRemovalEmptyTheList()
    ensures ModificationsRemoved([Modification(7, "summarize", ""), Modification(7, "summarize", "")], 7) == []
  {
    var mods := [Modification(7, "summarize", ""), Modification(7, "summarize", "")];
    assert mods[1..][1..] == [];
  }

  /** `modifications.map(({ type, length }) => ({ type, length }))`. */
  function Steps(mods: seq<Modification>): (steps: seq<ModificationStep>)
    ensures |steps| == |mods|
    ensures forall i :: 0 <= i < |mods| ==> steps[i].kind == mods[i].kind && steps[i].length == mods[i].length
  {
    seq(|mods|, i requires 0 <= i < |mods| => ModificationStep(mods[i].kind, mods[i].length))
  }

  // ---------------------------------------------------------------------
  // Page state

  /** The state `WordCounterPage` keeps with `useState`. */
  class WordCounterPage {
    var text: string
    var modifications: seq<Modification>
    var modifiedText: string
    var isLoading: bool

    constructor()
      ensures text == "" && modifications == InitialModifications
      ensures modifiedText == "" && !isLoading
    {
      text := "";
      modifications := InitialModifications;
      modifiedText := "";
      isLoading := false;
    }

    /** The count shown under the input: its number of words, 0 when it is blank. */
    function WordCount(): (n: nat)
      reads this
      ensures n == RunCount(text) && (IsBlank(text) <==> n == 0)
    {
      GetWordCount(text)
    }

    /** The count shown under the modified text: its number of words, 0 when it is blank. */
    function ModifiedWordCount(): (n: nat)
      reads this
      ensures n == RunCount(modifiedText) && (IsBlank(modifiedText) <==> n == 0)
    {
      GetWordCount(modifiedText)
    }

    method HandleModificationChange(id: int, field: ModificationField, value: string)
      modifies this
      ensures modifications == ModificationsChanged(old(modifications), id, field, value)
      ensures text == old(text) && modifiedText == old(modifiedText) && isLoading == old(isLoading)
    {
      modifications := ModificationsChanged(modifications, id, field, value);
    }

    /** `now` is the value `Date.now()` returns. */
    method AddModification(now: int)
      modifies this
      ensures modifications == ModificationsAdded(old(modifications), now)
      ensures text == old(text) && modifiedText == old(modifiedText) && isLoading == old(isLoading)
    {
      modifications := ModificationsAdded(modifications, now);
    }

    method RemoveModification(id: int)
      modifies this
      ensures modifications == ModificationsRemoved(old(modifications), id)
      ensures text == old(text) && modifiedText == old(modifiedText) && isLoading == old(isLoading)
    {
      modifications := ModificationsRemoved(modifications, id);
    }

    /**
     * `handleModify`, with `outcome` the result of the awaited `modifyText`
     * call (`None` when it throws). An empty text stops the handler before
     * anything changes or any request is made; otherwise the request
     * carries the text and the steps, the modified text becomes the
     * service's answer (or stays cleared on failure), and loading ends.
     */
    method HandleModify(outcome: Option<string>) returns (request: Option<ModifyTextInput>)
      modifies this
      ensures old(text) == "" ==> request == None
      ensures old(text) == "" ==> modifiedText == old(modifiedText) && isLoading == old(isLoading)
      ensures old(text) != "" ==> request == Some(ModifyTextInput(old(text), Steps(old(modifications))))
      ensures old(text) != "" ==> modifiedText == (if outcome.Some? then outcome.value else "") && !isLoading
      ensures text == old(text) && modifications == old(modifications)
    {
      if text == "" {
        return None;
      }
      isLoading := true;
      modifiedText := "";
      request := Some(ModifyTextInput(text, Steps(modifications)));
      if outcome.Some? {
        modifiedText := outcome.value;
      }
      isLoading := false;
    }

    method HandleClear()
      modifies this
      ensures text == "" && modifiedText == ""
      ensures modifications == old(modifications) && isLoading == old(isLoading)
    {
      text := "";
      modifiedText := "";
    }

    method HandleSwitch()
      modifies this
      ensures text == old(modifiedText) && modifiedText == ""
      ensures WordCount() == old(ModifiedWordCount())
      ensures modifications == old(modifications) && isLoading == old(isLoading)
    {
      text := modifiedText;
      modifiedText := "";
    }
  }
}
