/**
 * The viewer's session state (src/App.tsx): which subject, branch, topic and
 * subtopic are expanded, and the cursor of the detail view over the siblings
 * of the opened subtopic. Each React handler is read as one sequential
 * update of this state.
 */
module Navigation {
  import opened Wrappers
  import opened Sequences
  import opened Records

  // ---------------------------------------------------------------------
  // Expand and collapse
  // ---------------------------------------------------------------------

  datatype Subject = Botany | Zoology

  /** `expandedSubjects`: which of the two subject panels is open. */
  datatype Subjects = Subjects(botany: bool, zoology: bool)

  function Expanded(s: Subjects, subject: Subject): bool {
    match subject
    case Botany => s.botany
    case Zoology => s.zoology
  }

  /** At most one subject panel is open. */
  predicate AtMostOneSubject(s: Subjects) {
    !(s.botany && s.zoology)
  }

  /** `handleSubjectClick`'s update: the clicked subject flips, the other one closes. */
  function ToggleSubject(prev: Subjects, subject: Subject): (r: Subjects)
    ensures Expanded(r, subject) == !Expanded(prev, subject)
    ensures forall other :: other != subject ==> !Expanded(r, other)
    ensures AtMostOneSubject(r)
  {
    Subjects(
      if subject == Botany then !prev.botany else false,
      if subject == Zoology then !prev.zoology else false)
  }

  /** Clicking a branch or topic: the same value again collapses it, another value selects that one. */
  function Toggle(current: Option<string>, clicked: string): (r: Option<string>)
    ensures r == None <==> current == Some(clicked)
    ensures r != None ==> r == Some(clicked)
  {
    if current == Some(clicked) then None else Some(clicked)
  }

  /** Two clicks on the same value leave it expanded exactly when it was expanded before; otherwise nothing is. */
  lemma ToggleTwice(current: Option<string>, clicked: string)
    ensures Toggle(Toggle(current, clicked), clicked) == (if current == Some(clicked) then current else None)
  {
  }

  // ---------------------------------------------------------------------
  // The detail-view cursor
  // ---------------------------------------------------------------------

  /**
   * The part of the state the detail view reads: the sibling list, the index
   * in it (-1 when closed), and the shown subtopic, description, image and
   * video. The view is open while `description` is present.
   */
  datatype Cursor = Cursor(
    list: seq<SiblingItem>,
    index: int,
    subtopic: Option<string>,
    description: Option<string>,
    image: Option<string>,
    video: Option<string>)

  /** The index is -1 or a position in the list. */
  predicate InRange(c: Cursor) {
    -1 <= c.index < |c.list|
  }

  /** The cursor shows `item`. */
  predicate Shows(c: Cursor, item: SiblingItem) {
    c.subtopic == Some(item.subtopic) && c.description == Some(item.description)
    && c.image == item.image && c.video == item.video
  }

  /** The detail view is closed: no description, image or video selected. */
  predicate Cleared(c: Cursor) {
    c.description == None && c.image == None && c.video == None
  }

  /** `showPreviousButton`. */
  function ShowPrevious(c: Cursor): (b: bool)
    ensures InRange(c) && b ==> 0 <= c.index - 1 < c.index < |c.list|
    ensures InRange(c) && !b ==> c.index == -1 || c.index == 0
  {
    c.index > 0
  }

  /** `showNextButton`. */
  function ShowNext(c: Cursor): (b: bool)
    ensures InRange(c) && b ==> 0 <= c.index + 1 < |c.list|
    ensures InRange(c) && !b ==> c.index == |c.list| - 1
  {
    c.index < |c.list| - 1
  }

  /** `handleSubtopicClick`'s update of the cursor, for the records of the open subject. */
  function Open(c: Cursor, data: seq<Record>, subtopic: string, description: string,
                branch: string, topic: Option<string>): (r: Cursor)
    ensures InRange(r)
    ensures r.list == SiblingList(data, branch, topic)
    ensures r.index == FindIndex(r.list, subtopic)
    ensures r.subtopic == Toggle(c.subtopic, subtopic)
    ensures r.description == Some(description)
    ensures r.index >= 0 ==> r.image == r.list[r.index].image && r.video == r.list[r.index].video
    ensures r.index == -1 ==> r.image == None && r.video == None
  {
    var list := SiblingList(data, branch, topic);
    var found := FindIndex(list, subtopic);
    Cursor(list, found, Toggle(c.subtopic, subtopic), Some(description),
           if found >= 0 then list[found].image else None,
           if found >= 0 then list[found].video else None)
  }

  /** `handleNextTopic`: step to the next sibling, or close the view after the last one. */
  function Next(c: Cursor): (r: Cursor)
    requires InRange(c)
    ensures InRange(r) && r.list == c.list
    ensures ShowNext(c) ==> r.index == c.index + 1 && Shows(r, c.list[r.index])
    ensures !ShowNext(c) ==> r.index == -1 && Cleared(r) && r.subtopic == c.subtopic
    ensures c.index >= 0 ==> r.index != 0
  {
    if c.index < |c.list| - 1 then
      var item := c.list[c.index + 1];
      Cursor(c.list, c.index + 1, Some(item.subtopic), Some(item.description), item.image, item.video)
    else
      Cursor(c.list, -1, c.subtopic, None, None, None)
  }

  /** `handlePreviousTopic`: step to the previous sibling; at the first one (or closed) nothing changes. */
  function Previous(c: Cursor): (r: Cursor)
    requires InRange(c)
    ensures InRange(r) && r.list == c.list
    ensures ShowPrevious(c) ==> r.index == c.index - 1 && Shows(r, c.list[r.index])
    ensures !ShowPrevious(c) ==> r == c
  {
    if c.index > 0 then
      var item := c.list[c.index - 1];
      Cursor(c.list, c.index - 1, Some(item.subtopic), Some(item.description), item.image, item.video)
    else
      c
  }

  /** The modal's `onClose`: the view closes and the selection is cleared; list and title stay. */
  function Close(c: Cursor): (r: Cursor)
    ensures InRange(r) && r.index == -1 && Cleared(r)
    ensures r.list == c.list && r.subtopic == c.subtopic
  {
    Cursor(c.list, -1, c.subtopic, None, None, None)
  }

  /** The Next button is offered exactly when Next keeps the view on a sibling. */
  lemma ShowNextIff(c: Cursor)
    requires InRange(c)
    ensures ShowNext(c) <==> Next(c).index != -1
  {
  }

  /** The Previous button is offered exactly when Previous moves the cursor. */
  lemma ShowPreviousIff(c: Cursor)
    requires InRange(c)
    ensures ShowPrevious(c) <==> Previous(c).index != c.index
  {
  }

  /** Previous undoes a Next that stayed on a sibling. */
  lemma PreviousAfterNext(c: Cursor)
    requires InRange(c) && 0 <= c.index < |c.list| - 1
    ensures Previous(Next(c)).index == c.index
    ensures Shows(Previous(Next(c)), c.list[c.index])
  {
  }

  /** Next applied `n` times. */
  function NextTimes(c: Cursor, n: nat): (r: Cursor)
    requires InRange(c)
    ensures InRange(r) && r.list == c.list
    decreases n
  {
    if n == 0 then c else NextTimes(Next(c), n - 1)
  }

  /**
   * From an open position, Next walks through the remaining siblings one by
   * one and never wraps around.
   */
  lemma {:induction false} NextTimesWalks(c: Cursor, n: nat)
    requires InRange(c) && c.index >= 0
    requires 0 < n <= |c.list| - 1 - c.index
    ensures NextTimes(c, n).index == c.index + n
    ensures Shows(NextTimes(c, n), c.list[c.index + n])
    decreases n
  {
    if n > 1 {
      NextTimesWalks(Next(c), n - 1);
    }
  }

  /**
   * Opened at position i of a list of length L, exactly L - i presses of Next
   * close the view: the last one leaves the last sibling.
   */
  lemma {:induction false} NextTimesCloses(c: Cursor)
    requires InRange(c) && c.index >= 0
    ensures NextTimes(c, |c.list| - c.index).index == -1
    ensures Cleared(NextTimes(c, |c.list| - c.index))
  {
    var n := |c.list| - 1 - c.index;
    if n == 0 {
      assert NextTimes(c, 1) == NextTimes(Next(c), 0);
    } else {
      NextTimesWalks(c, n);
      NextTimesSplit(c, n, 1);
    }
  }

  /** Pressing Next m + k times is pressing it m times and then k times. */
  lemma {:induction false} NextTimesSplit(c: Cursor, m: nat, k: nat)
    requires InRange(c)
    ensures NextTimes(c, m + k) == NextTimes(NextTimes(c, m), k)
    decreases m
  {
    if m > 0 {
      NextTimesSplit(Next(c), m - 1, k);
    }
  }

  /** One step of the detail view, as the user triggers it. */
  datatype Step =
    | OpenStep(data: seq<Record>, subtopic: string, description: string, branch: string, topic: Option<string>)
    | NextStep
    | PreviousStep
    | CloseStep

  function Apply(c: Cursor, step: Step): (r: Cursor)
    requires InRange(c)
    ensures InRange(r)
  {
    match step
    case OpenStep(data, subtopic, description, branch, topic) => Open(c, data, subtopic, description, branch, topic)
    case NextStep => Next(c)
    case PreviousStep => Previous(c)
    case CloseStep => Close(c)
  }

  /** Any sequence of steps, from any valid cursor, keeps the index in [-1, |list| - 1]. */
  function Run(c: Cursor, steps: seq<Step>): (r: Cursor)
    requires InRange(c)
    ensures -1 <= r.index < |r.list|
    ensures steps == [] ==> r == c
    decreases steps
  {
    if steps == [] then c else Run(Apply(c, steps[0]), steps[1..])
  }

  /** The cursor of a freshly started viewer: nothing opened yet. */
  const Initial := Cursor([], -1, None, None, None, None)

  /** A topic-less branch with two subtopics: open the first, step to the second, step past it. */
  lemma TwoSiblingWalk()
    ensures var data := [
              Record("Plant Kingdom", "", "Algae", "d1", None, None),
              Record("Plant Kingdom", "", "Fungi", "d2", None, None)];
            var shown := Open(Initial, data, "Algae", "d1", "Plant Kingdom", None);
            && shown.index == 0 && ShowNext(shown) && !ShowPrevious(shown)
            && Next(shown).index == 1 && Next(shown).subtopic == Some("Fungi") && !ShowNext(Next(shown))
            && Next(Next(shown)).index == -1 && Cleared(Next(Next(shown)))
  {
    var data := [
      Record("Plant Kingdom", "", "Algae", "d1", None, None),
      Record("Plant Kingdom", "", "Fungi", "d2", None, None)];
    var list := SiblingList(data, "Plant Kingdom", None);
    assert Filter(data, SiblingOf("Plant Kingdom", None)) == data;
    assert list == [SiblingItem("Algae", "d1", None, None), SiblingItem("Fungi", "d2", None, None)];
  }

  // ---------------------------------------------------------------------
  // The session
  // ---------------------------------------------------------------------

  /** The state fields of the `App` component and its click handlers. */
  class Session {
    var expandedSubjects: Subjects
    var expandedBranch: Option<string>
    var expandedTopic: Option<string>
    var expandedSubtopic: Option<string>
    var selectedDescription: Option<string>
    var selectedImage: Option<string>
    var selectedVideo: Option<string>
    var botanyData: seq<Record>
    var zoologyData: seq<Record>
    var currentSubtopicIndex: int
    var currentSubtopicList: seq<SiblingItem>

    /** What every handler keeps: one subject at most, a cursor in range, loaded sheets well formed. */
    ghost predicate Valid()
      reads this
    {
      AtMostOneSubject(expandedSubjects)
      && InRange(Detail())
      && (selectedDescription.None? ==> currentSubtopicIndex == -1)
      && WellFormed(botanyData) && WellFormed(zoologyData)
    }

    /** The cursor the detail view reads. */
    function Detail(): Cursor
      reads this
    {
      Cursor(currentSubtopicList, currentSubtopicIndex, expandedSubtopic,
                        selectedDescription, selectedImage, selectedVideo)
    }

    /** The records of the open subject: botany when its panel is open, zoology otherwise. */
    function CurrentData(): (r: seq<Record>)
      reads this
      ensures expandedSubjects.botany ==> r == botanyData
      ensures !expandedSubjects.botany ==> r == zoologyData
      ensures WellFormed(botanyData) && WellFormed(zoologyData) ==> WellFormed(r)
    {
      if expandedSubjects.botany then botanyData else zoologyData
    }

    /** The modal's `isOpen`. */
    function ModalOpen(): (r: bool)
      reads this
      ensures r <==> Detail().description.Some?
      ensures Valid() && !r ==> Detail().index == -1 && !ShowPrevious(Detail())
    {
      selectedDescription.Some?
    }

    /** The modal's title: the expanded subtopic, or empty. */
    function Title(): (r: string)
      reads this
      ensures expandedSubtopic.Some? ==> r == expandedSubtopic.value
      ensures expandedSubtopic.None? ==> r == ""
    {
      expandedSubtopic.GetOr("")
    }

    /** The initial `useState` values: nothing expanded, nothing selected, no data yet. */
    constructor ()
      ensures Valid()
      ensures expandedSubjects == Subjects(false, false)
      ensures expandedBranch == None && expandedTopic == None
      ensures Detail() == Initial
      ensures botanyData == [] && zoologyData == []
    {
      expandedSubjects := Subjects(false, false);
      expandedBranch := None;
      expandedTopic := None;
      expandedSubtopic := None;
      selectedDescription := None;
      selectedImage := None;
      selectedVideo := None;
      botanyData := [];
      zoologyData := [];
      currentSubtopicIndex := -1;
      currentSubtopicList := [];
    }

    /** The end of a sheet load: the parsed rows replace that subject's records. */
    method LoadSheet(subject: Subject, rows: seq<Row>)
      requires Valid()
      modifies this`botanyData, this`zoologyData
      ensures Valid()
      ensures subject == Botany ==> botanyData == ParseRows(rows) && zoologyData == old(zoologyData)
      ensures subject == Zoology ==> zoologyData == ParseRows(rows) && botanyData == old(botanyData)
    {
      var parsed := ParseRows(rows);
      if subject == Botany {
        botanyData := parsed;
      } else {
        zoologyData := parsed;
      }
    }

    /** `handleSubjectClick`: flip the clicked subject, close the other, collapse everything below. */
    method SubjectClick(subject: Subject)
      requires Valid()
      modifies this`expandedSubjects, this`expandedBranch, this`expandedTopic, this`expandedSubtopic
      ensures Valid()
      ensures expandedSubjects == ToggleSubject(old(expandedSubjects), subject)
      ensures expandedBranch == None && expandedTopic == None && expandedSubtopic == None
    {
      var prev := expandedSubjects;
      expandedSubjects := Subjects(
        if subject == Botany then !prev.botany else false,
        if subject == Zoology then !prev.zoology else false);
      expandedBranch := None;
      expandedTopic := None;
      expandedSubtopic := None;
    }

    /** `handleBranchClick`: toggle the branch, collapse topic and subtopic. */
    method BranchClick(branch: string)
      requires Valid()
      modifies this`expandedBranch, this`expandedTopic, this`expandedSubtopic
      ensures Valid()
      ensures expandedBranch == Toggle(old(expandedBranch), branch)
      ensures expandedTopic == None && expandedSubtopic == None
    {
      expandedBranch := if expandedBranch == Some(branch) then None else Some(branch);
      expandedTopic := None;
      expandedSubtopic := None;
    }

    /** `handleTopicClick`: toggle the topic, collapse the subtopic; the branch stays. */
    method TopicClick(topic: string)
      requires Valid()
      modifies this`expandedTopic, this`expandedSubtopic
      ensures Valid()
      ensures expandedTopic == Toggle(old(expandedTopic), topic)
      ensures expandedSubtopic == None
    {
      expandedTopic := if expandedTopic == Some(topic) then None else Some(topic);
      expandedSubtopic := None;
    }

    /** `handleSubtopicClick`: open the detail view on a subtopic among its siblings. */
    method SubtopicClick(subtopic: string, description: string, branch: string, topic: Option<string>)
      requires Valid()
      modifies this`expandedSubtopic, this`selectedDescription, this`selectedImage, this`selectedVideo,
               this`currentSubtopicList, this`currentSubtopicIndex
      ensures Valid()
      ensures Detail() == Open(old(Detail()), CurrentData(), subtopic, description, branch, topic)
      ensures ModalOpen()
      ensures Title() == if old(expandedSubtopic) == Some(subtopic) then "" else subtopic
    {
      ghost var before := Detail();
      var currentData := CurrentData();
      expandedSubtopic := if expandedSubtopic == Some(subtopic) then None else Some(subtopic);
      selectedDescription := Some(description);
      var subtopics := SiblingList(currentData, branch, topic);
      currentSubtopicList := subtopics;
      var foundIndex := FindIndex(subtopics, subtopic);
      currentSubtopicIndex := foundIndex;
      selectedImage := if foundIndex >= 0 then subtopics[foundIndex].image else None;
      selectedVideo := if foundIndex >= 0 then subtopics[foundIndex].video else None;
      assert Detail() == Open(before, currentData, subtopic, description, branch, topic);
    }

    /** `handlePreviousTopic`. */
    method PreviousTopic()
      requires Valid()
      modifies this`expandedSubtopic, this`selectedDescription, this`selectedImage, this`selectedVideo,
               this`currentSubtopicIndex
      ensures Valid()
      ensures Detail() == Previous(old(Detail()))
      ensures ModalOpen() == old(ModalOpen())
    {
      if currentSubtopicIndex > 0 {
        var prevSubtopic := currentSubtopicList[currentSubtopicIndex - 1];
        currentSubtopicIndex := currentSubtopicIndex - 1;
        expandedSubtopic := Some(prevSubtopic.subtopic);
        selectedDescription := Some(prevSubtopic.description);
        selectedImage := prevSubtopic.image;
        selectedVideo := prevSubtopic.video;
      }
    }

    /** `handleNextTopic`. */
    method NextTopic()
      requires Valid()
      modifies this`expandedSubtopic, this`selectedDescription, this`selectedImage, this`selectedVideo,
               this`currentSubtopicIndex
      ensures Valid()
      ensures Detail() == Next(old(Detail()))
      ensures ModalOpen() == old(ShowNext(Detail()))
    {
      if currentSubtopicIndex < |currentSubtopicList| - 1 {
        var nextSubtopic := currentSubtopicList[currentSubtopicIndex + 1];
        currentSubtopicIndex := currentSubtopicIndex + 1;
        expandedSubtopic := Some(nextSubtopic.subtopic);
        selectedDescription := Some(nextSubtopic.description);
        selectedImage := nextSubtopic.image;
        selectedVideo := nextSubtopic.video;
      } else {
        currentSubtopicIndex := -1;
        selectedDescription := None;
        selectedImage := None;
        selectedVideo := None;
      }
    }

    /** The `onClose` handler passed to the modal. */
    method CloseModal()
      requires Valid()
      modifies this`selectedDescription, this`selectedImage, this`selectedVideo, this`currentSubtopicIndex
      ensures Valid()
      ensures Detail() == Close(old(Detail()))
      ensures !ModalOpen()
    {
      selectedDescription := None;
      currentSubtopicIndex := -1;
      selectedImage := None;
      selectedVideo := None;
    }
  }
}
