/**
 * The session store: the stored spin history with an undo/redo pointer,
 * and the view of it the history panel shows.
 */
module Session {
  import opened Wrappers
  import opened Seqs

  const MaxHistoryLength: nat := 150

  /** historyPointer -1 means the whole history is active. */
  datatype Session = Session(
    spinHistory: seq<int>,
    historyPointer: int,
    lastSelectedNumber: Option<int>,
    selectedNumbersHistory: seq<int>)

  /** The pointer is the head sentinel or names a spin before the last. */
  predicate Valid(s: Session)
  {
    s.historyPointer == -1 || 0 <= s.historyPointer <= |s.spinHistory| - 2
  }

  function Initial(): (r: Session)
    ensures Valid(r) && r.spinHistory == []
  {
    Session([], -1, None, [])
  }

  /** Array.prototype.slice(0, end): a negative end counts from the back; both ends clamp. */
  function SlicePrefix<T>(s: seq<T>, end: int): (r: seq<T>)
    ensures 0 <= end <= |s| ==> r == s[..end]
    ensures |r| <= |s| && r == s[..|r|]
  {
    var e := if end < 0 then |s| + end else end;
    if e <= 0 then [] else if e >= |s| then s else s[..e]
  }

  /** slice(-n) for n > 0: the last n entries, or all of s when it is shorter. */
  function KeepLast<T>(s: seq<T>, n: nat): (r: seq<T>)
    ensures |r| == if |s| <= n then |s| else n
    ensures r == s[|s| - |r|..]
  {
    if |s| > n then s[|s| - n..] else s
  }

  /** The active view: the whole history at the head, else the first pointer+1 spins. */
  function ActiveView(s: Session): (r: seq<int>)
    ensures |r| <= |s.spinHistory| && r == s.spinHistory[..|r|]
  {
    if s.historyPointer == -1 then s.spinHistory else SlicePrefix(s.spinHistory, s.historyPointer + 1)
  }

  /** The displayed list: the active view, newest first. */
  function DisplayHistory(s: Session): (r: seq<int>)
    ensures |r| == |ActiveView(s)|
    ensures forall i :: 0 <= i < |r| ==> r[i] == ActiveView(s)[|r| - 1 - i]
  {
    Reverse(ActiveView(s))
  }

  predicate CanUndo(s: Session)
  {
    |ActiveView(s)| > 0
  }

  predicate CanRedo(s: Session)
  {
    0 <= s.historyPointer < |s.spinHistory| - 1
  }

  /** For a valid session, the view is the prefix of length pointer+1, or everything at the head. */
  lemma ViewLength(s: Session)
    requires Valid(s)
    ensures |ActiveView(s)| == if s.historyPointer == -1 then |s.spinHistory| else s.historyPointer + 1
  {
  }

  /** A non-empty stored history always shows a non-empty view. */
  lemma ViewNonEmpty(s: Session)
    requires Valid(s) && s.spinHistory != []
    ensures CanUndo(s)
  {
    ViewLength(s);
  }

  /**
   * addSpin: drops the undone spins, appends n, keeps the last 150 and
   * returns to the head.
   */
  function AddSpin(s: Session, n: int): (r: Session)
    ensures Valid(r) && r.historyPointer == -1
    ensures 1 <= |r.spinHistory| <= MaxHistoryLength && r.spinHistory[|r.spinHistory| - 1] == n
    ensures r.lastSelectedNumber == Some(n)
    ensures r.selectedNumbersHistory == s.selectedNumbersHistory + [n]
  {
    var p := s.historyPointer;
    var base := if p >= 0 && p < |s.spinHistory| - 1 then SlicePrefix(s.spinHistory, p + 1) else s.spinHistory;
    var h := KeepLast(base + [n], MaxHistoryLength);
    Session(h, -1, Some(n), s.selectedNumbersHistory + [n])
  }

  /** What addSpin stores is what was shown, plus n, capped at 150. */
  lemma AddSpinExtendsView(s: Session, n: int)
    requires Valid(s)
    ensures AddSpin(s, n).spinHistory == KeepLast(ActiveView(s) + [n], MaxHistoryLength)
    ensures ActiveView(AddSpin(s, n)) == AddSpin(s, n).spinHistory
  {
  }

  /** Below the cap at the head, addSpin is a plain append. */
  lemma AddSpinAppends(s: Session, n: int)
    requires s.historyPointer == -1 && |s.spinHistory| < MaxHistoryLength
    ensures AddSpin(s, n).spinHistory == s.spinHistory + [n]
  {
  }

  function ClearHistory(s: Session): (r: Session)
    ensures r.spinHistory == [] && r.historyPointer == -1
    ensures r.lastSelectedNumber == None && r.selectedNumbersHistory == []
    ensures Valid(r) && !CanUndo(r) && !CanRedo(r)
  {
    Initial()
  }

  /** undoLastSpin. */
  function Undo(s: Session): (r: Session)
    ensures r.spinHistory == s.spinHistory
    ensures r.lastSelectedNumber == s.lastSelectedNumber && r.selectedNumbersHistory == s.selectedNumbersHistory
    ensures Valid(s) ==> Valid(r)
  {
    if |s.spinHistory| == 0 then s
    else if s.historyPointer == -1 then s.(historyPointer := |s.spinHistory| - 2)
    else if s.historyPointer > 0 then s.(historyPointer := s.historyPointer - 1)
    else s
  }

  /** Undo hides the newest active spin, unless the view holds at most one. */
  lemma UndoShortensView(s: Session)
    requires Valid(s)
    ensures |ActiveView(s)| >= 2 ==> |ActiveView(Undo(s))| == |ActiveView(s)| - 1
    ensures |ActiveView(s)| <= 1 ==> Undo(s) == s
  {
    ViewLength(s);
    ViewLength(Undo(s));
  }

  /** Undo never empties the view of a non-empty history. */
  lemma UndoKeepsView(s: Session)
    requires Valid(s) && s.spinHistory != []
    ensures CanUndo(Undo(s))
  {
    ViewNonEmpty(Undo(s));
  }

  /** redoLastSpin, as written. */
  function Redo(s: Session): (r: Session)
    ensures r.spinHistory == s.spinHistory
    ensures r.lastSelectedNumber == s.lastSelectedNumber && r.selectedNumbersHistory == s.selectedNumbersHistory
    ensures Valid(s) ==> Valid(r)
  {
    if |s.spinHistory| == 0 then s
    else if s.historyPointer < |s.spinHistory| - 1 then
      var p := s.historyPointer + 1;
      s.(historyPointer := if p >= |s.spinHistory| - 1 then -1 else p)
    else s
  }

  /** When redo is offered, it shows exactly one more spin. */
  lemma RedoLengthensView(s: Session)
    requires Valid(s) && CanRedo(s)
    ensures |ActiveView(Redo(s))| == |ActiveView(s)| + 1
  {
    ViewLength(s);
    ViewLength(Redo(s));
  }

  /** Redo at the head is not a no-op: with two or more spins it jumps to the first spin. */
  lemma RedoFromHead(s: Session)
    requires s.historyPointer == -1 && |s.spinHistory| >= 2
    ensures Redo(s).historyPointer == 0
    ensures ActiveView(Redo(s)) == s.spinHistory[..1]
  {
  }

  /** Redo right after an undo that moved the pointer restores the session. */
  lemma RedoUndoesUndo(s: Session)
    requires Valid(s) && Undo(s).historyPointer != s.historyPointer
    ensures Redo(Undo(s)) == s
  {
  }
}
