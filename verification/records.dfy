/**
 * The flat study records of one subject sheet and the hierarchy the viewer
 * derives from them (src/App.tsx): rows to records, then branches, topics
 * per branch, topic-less ("direct") subtopics and the sibling list that the
 * detail view steps through.
 */
module Records {
  import opened Wrappers
  import opened Sequences

  /** One row of the sheet: each cell already converted with `toString()`, `None` for an empty cell. */
  type Row = seq<Option<string>>

  /** `SubjectData`: one subtopic with its place in the hierarchy. `topic == ""` means no topic. */
  datatype Record = Record(
    branch: string,
    topic: string,
    subtopic: string,
    description: string,
    image: Option<string>,
    video: Option<string>)

  /** What the detail view steps through: a record without its branch and topic. */
  datatype SiblingItem = SiblingItem(
    subtopic: string,
    description: string,
    image: Option<string>,
    video: Option<string>)

  /** What a topic-less branch lists: a sibling item without its video. */
  datatype DirectItem = DirectItem(
    subtopic: string,
    description: string,
    image: Option<string>)

  // ---------------------------------------------------------------------
  // Rows to records
  // ---------------------------------------------------------------------

  /** Cell `i` of `row`; a row shorter than `i + 1` cells reads as empty there. */
  function Cell(row: Row, i: nat): Option<string> {
    if i < |row| then row[i] else None
  }

  /** A text column: `row[i]?.toString() || ''`. */
  function Text(row: Row, i: nat): (t: string)
    ensures Cell(row, i).Some? ==> t == Cell(row, i).value
    ensures Cell(row, i).None? ==> t == ""
  {
    Cell(row, i).GetOr("")
  }

  /** A link column: `row[i]?.toString() || undefined`; an empty string is falsy, so it is absent too. */
  function Link(row: Row, i: nat): (l: Option<string>)
    ensures l.None? <==> Cell(row, i).None? || Cell(row, i).value == ""
    ensures l.Some? ==> l.value != "" && l == Cell(row, i)
  {
    match Cell(row, i)
    case Some(t) => if t == "" then None else Some(t)
    case None => None
  }

  /** The columns, in order: branch, topic, subtopic, description, image, video. */
  function ToRecord(row: Row): (r: Record)
    ensures Kept(r) <==> Cell(row, 0).Some? && Cell(row, 0).value != "" && Cell(row, 2).Some? && Cell(row, 2).value != ""
    ensures r.image != Some("") && r.video != Some("")
    ensures Cell(row, 0).Some? ==> r.branch == Cell(row, 0).value
    ensures Cell(row, 0).None? ==> r.branch == ""
    ensures Cell(row, 1).Some? ==> r.topic == Cell(row, 1).value
    ensures Cell(row, 1).None? ==> r.topic == ""
    ensures Cell(row, 2).Some? ==> r.subtopic == Cell(row, 2).value
    ensures Cell(row, 2).None? ==> r.subtopic == ""
    ensures Cell(row, 3).Some? ==> r.description == Cell(row, 3).value
    ensures Cell(row, 3).None? ==> r.description == ""
    ensures r.image.None? <==> Cell(row, 4).None? || Cell(row, 4).value == ""
    ensures r.video.None? <==> Cell(row, 5).None? || Cell(row, 5).value == ""
    ensures r.image.Some? ==> r.image == Cell(row, 4)
    ensures r.video.Some? ==> r.video == Cell(row, 5)
  {
    Record(Text(row, 0), Text(row, 1), Text(row, 2), Text(row, 3), Link(row, 4), Link(row, 5))
  }

  /** `item.branch && item.subtopic`: both required text fields are non-empty. */
  predicate Kept(r: Record) {
    r.branch != "" && r.subtopic != ""
  }

  /** Every record of a loaded sheet has a branch and a subtopic and no empty link. */
  predicate WellFormed(data: seq<Record>) {
    forall k :: 0 <= k < |data| ==>
      Kept(data[k]) && data[k].image != Some("") && data[k].video != Some("")
  }

  /** The rows after the header row (`rows.slice(1)`; empty when there are no rows). */
  function DataRows(rows: seq<Row>): seq<Row> {
    if rows == [] then [] else rows[1..]
  }

  /** The records of a sheet: the header row skipped, rows without branch or subtopic dropped. */
  function ParseRows(rows: seq<Row>): (data: seq<Record>)
    ensures WellFormed(data)
    ensures |data| < |rows| || rows == []
    ensures forall r :: r in data <==> exists i :: 1 <= i < |rows| && r == ToRecord(rows[i]) && Kept(r)
  {
    var mapped := Map(DataRows(rows), ToRecord);
    ParsedMembers(rows, mapped);
    Filter(mapped, Kept)
  }

  /** The records mapped from the rows are those of the rows after the header. */
  lemma ParsedMembers(rows: seq<Row>, mapped: seq<Record>)
    requires mapped == Map(DataRows(rows), ToRecord)
    ensures forall r :: r in mapped <==> exists i :: 1 <= i < |rows| && r == ToRecord(rows[i])
  {
    forall r
      ensures r in mapped <==> exists i :: 1 <= i < |rows| && r == ToRecord(rows[i])
    {
      if r in mapped {
        var j :| 0 <= j < |mapped| && mapped[j] == r;
        assert r == ToRecord(rows[j + 1]);
      }
      if exists i :: 1 <= i < |rows| && r == ToRecord(rows[i]) {
        var i :| 1 <= i < |rows| && r == ToRecord(rows[i]);
        assert mapped[i - 1] == r;
      }
    }
  }

  /** Parsing a longer sheet parses its extra rows after the earlier ones: record order is row order. */
  lemma ParseRowsAppend(rows: seq<Row>, more: seq<Row>)
    requires rows != []
    ensures ParseRows(rows + more) == ParseRows(rows) + Filter(Map(more, ToRecord), Kept)
  {
    assert DataRows(rows + more) == DataRows(rows) + more;
    MapAppend(DataRows(rows), more, ToRecord);
    FilterAppend(Map(DataRows(rows), ToRecord), Map(more, ToRecord), Kept);
  }

  /** The header row never contributes a record, whatever it holds. */
  lemma ParseRowsIgnoresHeader(header: Row, other: Row, rest: seq<Row>)
    ensures ParseRows([header] + rest) == ParseRows([other] + rest)
  {
    assert DataRows([header] + rest) == rest == DataRows([other] + rest);
  }

  // ---------------------------------------------------------------------
  // The hierarchy
  // ---------------------------------------------------------------------

  function BranchOf(r: Record): string { r.branch }

  function TopicOf(r: Record): string { r.topic }

  /** Records of `branch` that have a topic (`item.branch === branch && item.topic`). */
  function WithTopic(branch: string): Record -> bool {
    (r: Record) => r.branch == branch && r.topic != ""
  }

  /** Records of `branch` without a topic (`item.branch === branch && !item.topic`). */
  function WithoutTopic(branch: string): Record -> bool {
    (r: Record) => r.branch == branch && r.topic == ""
  }

  /** `getBranches`: the distinct branches, in the order they first occur. */
  function Branches(data: seq<Record>): (r: seq<string>)
    ensures forall b :: b in r <==> exists k :: 0 <= k < |data| && data[k].branch == b
    ensures NoDuplicates(r)
    ensures forall i, j :: 0 <= i < j < |r| ==> FirstBefore(Map(data, BranchOf), r[i], r[j])
  {
    var column := Map(data, BranchOf);
    assert forall k :: 0 <= k < |data| ==> column[k] == data[k].branch;
    Distinct(column)
  }

  /** `getTopics`: the distinct non-empty topics of `branch`, in the order they first occur. */
  function Topics(data: seq<Record>, branch: string): (r: seq<string>)
    ensures forall t :: t in r <==> t != "" && exists k :: 0 <= k < |data| && data[k].branch == branch && data[k].topic == t
    ensures NoDuplicates(r)
    ensures forall i, j :: 0 <= i < j < |r| ==> FirstBefore(Map(Filter(data, WithTopic(branch)), TopicOf), r[i], r[j])
  {
    FilterMapMembers(data, WithTopic(branch), TopicOf);
    Distinct(Map(Filter(data, WithTopic(branch)), TopicOf))
  }

  /** `hasDirectSubtopics`: some record of `branch` has no topic (`Array.prototype.some`). */
  function HasDirectSubtopics(data: seq<Record>, branch: string): (b: bool)
    ensures b <==> exists k :: 0 <= k < |data| && data[k].branch == branch && data[k].topic == ""
    decreases |data|
  {
    if data == [] then false
    else if data[0].branch == branch && data[0].topic == "" then true
    else
      var b := HasDirectSubtopics(data[1..], branch);
      assert forall k :: 1 <= k < |data| ==> data[k] == data[1..][k - 1];
      b
  }

  function ToDirectItem(r: Record): DirectItem {
    DirectItem(r.subtopic, r.description, r.image)
  }

  function ToSiblingItem(r: Record): SiblingItem {
    SiblingItem(r.subtopic, r.description, r.image, r.video)
  }

  /** `getDirectSubtopics`: the topic-less records of `branch`, in record order, without their video. */
  function DirectSubtopics(data: seq<Record>, branch: string): (r: seq<DirectItem>)
    ensures forall x :: x in r <==> exists k :: 0 <= k < |data| && WithoutTopic(branch)(data[k]) && x == ToDirectItem(data[k])
  {
    FilterMapMembers(data, WithoutTopic(branch), ToDirectItem);
    Map(Filter(data, WithoutTopic(branch)), ToDirectItem)
  }

  /** A branch has direct subtopics exactly when the list of them is not empty. */
  lemma HasDirectSubtopicsIff(data: seq<Record>, branch: string)
    ensures HasDirectSubtopics(data, branch) <==> DirectSubtopics(data, branch) != []
  {
    FilterEmpty(data, WithoutTopic(branch));
  }

  /** The direct-subtopic list of a concatenation is the two lists one after the other: record order is kept. */
  lemma DirectSubtopicsAppend(a: seq<Record>, b: seq<Record>, branch: string)
    ensures DirectSubtopics(a + b, branch) == DirectSubtopics(a, branch) + DirectSubtopics(b, branch)
  {
    FilterAppend(a, b, WithoutTopic(branch));
    MapAppend(Filter(a, WithoutTopic(branch)), Filter(b, WithoutTopic(branch)), ToDirectItem);
  }

  // ---------------------------------------------------------------------
  // The sibling list of an opened subtopic and the search in it
  // ---------------------------------------------------------------------

  /**
   * Which records are siblings of a clicked subtopic: those of its branch and
   * topic, or of its branch without topic when no topic is given. A topic of
   * `""` is falsy and so selects the topic-less records as well.
   */
  function SiblingOf(branch: string, topic: Option<string>): Record -> bool {
    if topic.Some? && topic.value != "" then
      (r: Record) => r.branch == branch && r.topic == topic.value
    else
      WithoutTopic(branch)
  }

  /** The list handed to the detail view when a subtopic of `branch`/`topic` is opened. */
  function SiblingList(data: seq<Record>, branch: string, topic: Option<string>): (r: seq<SiblingItem>)
    ensures |r| <= |data|
    ensures forall x :: x in r <==> exists k :: 0 <= k < |data| && SiblingOf(branch, topic)(data[k]) && x == ToSiblingItem(data[k])
  {
    FilterMapMembers(data, SiblingOf(branch, topic), ToSiblingItem);
    Map(Filter(data, SiblingOf(branch, topic)), ToSiblingItem)
  }

  /** The sibling list of a concatenation is the two lists one after the other: record order is kept. */
  lemma SiblingListAppend(a: seq<Record>, b: seq<Record>, branch: string, topic: Option<string>)
    ensures SiblingList(a + b, branch, topic) == SiblingList(a, branch, topic) + SiblingList(b, branch, topic)
  {
    FilterAppend(a, b, SiblingOf(branch, topic));
    MapAppend(Filter(a, SiblingOf(branch, topic)), Filter(b, SiblingOf(branch, topic)), ToSiblingItem);
  }

  /** The topic-less sibling list is the rendered direct-subtopic list, item by item, with the video added. */
  lemma DirectSubtopicsAreSiblings(data: seq<Record>, branch: string)
    ensures var d := DirectSubtopics(data, branch);
            var s := SiblingList(data, branch, None);
            |d| == |s| &&
            forall i :: 0 <= i < |d| ==>
              d[i] == DirectItem(s[i].subtopic, s[i].description, s[i].image)
  {
  }

  /**
   * `findIndex` on subtopic names: the first position holding `subtopic`,
   * or -1 when there is none.
   */
  function FindIndex(list: seq<SiblingItem>, subtopic: string): (k: int)
    ensures -1 <= k < |list|
    ensures k >= 0 ==> list[k].subtopic == subtopic
    ensures k >= 0 ==> forall j :: 0 <= j < k ==> list[j].subtopic != subtopic
    ensures k == -1 <==> forall j :: 0 <= j < |list| ==> list[j].subtopic != subtopic
  {
    if list == [] then -1
    else if list[0].subtopic == subtopic then 0
    else
      var k := FindIndex(list[1..], subtopic);
      if k == -1 then -1 else k + 1
  }

  /**
   * A subtopic the viewer offers under a branch and topic is always found in
   * the sibling list opened for it: clicking a rendered item never yields -1.
   */
  lemma ClickedSubtopicIsFound(data: seq<Record>, branch: string, topic: Option<string>, k: nat)
    requires k < |data| && SiblingOf(branch, topic)(data[k])
    ensures 0 <= FindIndex(SiblingList(data, branch, topic), data[k].subtopic)
  {
    var list := SiblingList(data, branch, topic);
    var item := ToSiblingItem(data[k]);
    assert item in list;
    var i :| 0 <= i < |list| && list[i] == item;
    assert list[i].subtopic == data[k].subtopic;
  }
}
