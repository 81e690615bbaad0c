/**
 * The lesson path display (src/components/learning/DuolingoLearningPath.tsx
 * and DuolingoPathNode.tsx): the S-curve placement of the nodes, which node
 * is shown as current, which is shown locked, what a click does, and the
 * icon, progress ring and number badge of each node.
 */
module PathDisplay {
  import opened Common
  import LessonProgress

  /** The flags a lesson arrives with, and its lesson number if any. */
  datatype PathLesson = PathLesson(isCompleted: bool, isLocked: bool, isCurrent: bool, lessonNumber: Option<string>)

  datatype Position = Left | Center | Right

  /** `['center', 'right', 'center', 'left'][index % 4]`. */
  function NodePosition(index: nat): (p: Position)
    ensures p == Center <==> index % 4 == 0 || index % 4 == 2
    ensures index % 4 == 1 <==> p == Right
    ensures index % 4 == 3 <==> p == Left
  {
    var pattern := [Center, Right, Center, Left];
    pattern[index % 4]
  }

  /** The S-curve repeats every four nodes. */
  lemma PositionPeriodic(index: nat)
    ensures NodePosition(index + 4) == NodePosition(index)
  {
  }

  /** `getHorizontalOffset`: the layout classes of each position. */
  function Offset(p: Position): (c: string)
    ensures c != ""
  {
    match p
    case Left => "ml-8"
    case Right => "mr-8 ml-auto"
    case Center => "mx-auto"
  }

  /** Each position has its own offset, so the mapping loses nothing. */
  lemma OffsetsDistinct(p: Position, q: Position)
    requires p != q
    ensures Offset(p) != Offset(q)
  {
  }

  datatype Icon = Check | Star | Video | Gift | Headphones

  /** A node as drawn: shown locked, active, its icon, ring percentage, whether the ring is drawn, and its badge. */
  datatype NodeView = NodeView(
    locked: bool, active: bool, icon: Icon, ringPercent: int, ringShown: bool, badge: Option<string>)

  /**
   * `DuolingoPathNode`: a current node is never shown locked; a node is active
   * when current or open and not completed; completed nodes show a check and
   * the others cycle through four icons; the ring is full when completed, at
   * 70 when current, and empty otherwise, and only drawn for the current
   * node; the number badge (lesson number, else position) only on open nodes.
   */
  function Node(lesson: PathLesson, index: nat, isCurrent: bool): (v: NodeView)
    ensures v.locked <==> lesson.isLocked && !isCurrent
    ensures isCurrent ==> !v.locked
    ensures v.active <==> isCurrent || (!v.locked && !lesson.isCompleted)
    ensures lesson.isCompleted <==> v.icon == Check
    ensures !lesson.isCompleted ==> v.icon == [Star, Video, Gift, Headphones][index % 4]
    ensures v.ringPercent == (if lesson.isCompleted then 100 else if isCurrent then 70 else 0)
    ensures v.ringShown <==> isCurrent
    ensures v.badge.Some? <==> !v.locked
    ensures v.badge.Some? ==> v.badge.value == OrStr(lesson.lessonNumber, NatStr(index + 1))
  {
    var locked := lesson.isLocked && !isCurrent;
    var active := isCurrent || (!locked && !lesson.isCompleted);
    var icon :=
      if lesson.isCompleted then Check
      else match index % 4
        case 0 => Star
        case 1 => Video
        case 2 => Gift
        case _ => Headphones;
    var ring := if lesson.isCompleted then 100 else if isCurrent then 70 else 0;
    NodeView(locked, active, icon, ring, isCurrent,
      if locked then None else Some(OrStr(lesson.lessonNumber, NatStr(index + 1))))
  }

  /** `handleClick`: the lesson is handed on exactly when the node is not shown locked. */
  function NodeClick(lesson: PathLesson, index: nat, isCurrent: bool): (r: Option<PathLesson>)
    ensures r.Some? <==> !Node(lesson, index, isCurrent).locked
    ensures r.Some? ==> r.value == lesson
  {
    if lesson.isLocked && !isCurrent then None else Some(lesson)
  }

  /** The path's entry for a node: its placement, whether it is current, whether a connector follows it, and the node. */
  datatype PathEntry = PathEntry(position: Position, isCurrent: bool, connector: bool, node: NodeView)

  /**
   * `DuolingoLearningPath`: one entry per lesson in order; a node is current
   * when its lesson says so or when it is the first and not completed; a
   * connector follows every node but the last.
   */
  function Path(lessons: seq<PathLesson>): (r: seq<PathEntry>)
    ensures |r| == |lessons|
    ensures forall i :: 0 <= i < |r| ==>
              && r[i].position == NodePosition(i)
              && (r[i].isCurrent <==> lessons[i].isCurrent || (i == 0 && !lessons[i].isCompleted))
              && (r[i].connector <==> i < |r| - 1)
              && r[i].node == Node(lessons[i], i, r[i].isCurrent)
  {
    seq(|lessons|, i requires 0 <= i < |lessons| =>
      var isCurrent := lessons[i].isCurrent || (i == 0 && !lessons[i].isCompleted);
      PathEntry(NodePosition(i), isCurrent, i < |lessons| - 1, Node(lessons[i], i, isCurrent)))
  }

  /** The path's view of the lessons annotated by the progress hook. */
  function FromAnnotated(a: seq<LessonProgress.Annotated>): (r: seq<PathLesson>)
    ensures |r| == |a|
    ensures forall i :: 0 <= i < |r| ==>
              r[i] == PathLesson(a[i].isCompleted, a[i].isLocked, a[i].isCurrent, None)
  {
    seq(|a|, i requires 0 <= i < |a| => PathLesson(a[i].isCompleted, a[i].isLocked, a[i].isCurrent, None))
  }

  /**
   * Fed from the progress hook, the path adds nothing of its own: its current
   * node is the hook's current lesson and it shows exactly the hook's locks,
   * so at most one node is current and a click reaches every unlocked lesson.
   */
  lemma PathAgreesWithAnnotation(lessons: seq<LessonProgress.Lesson>, m: map<string, LessonProgress.ProgressRow>, i: nat)
    requires i < |lessons|
    ensures var a := LessonProgress.Annotate(lessons, m);
            var p := Path(FromAnnotated(a));
            && (p[i].isCurrent <==> a[i].isCurrent)
            && (p[i].node.locked <==> a[i].isLocked)
  {
    var a := LessonProgress.Annotate(lessons, m);
    LessonProgress.CurrentIsFirstIncomplete(lessons, m, i);
    if i == 0 {
      assert LessonProgress.PrefixDone(lessons, m, 0);
    }
  }
}
