/** The anchor store and its consumers: the tracker's `onUpdate` callback
    writes one target's pose (or the invisible matrix) into a map keyed by
    target index, and each `ARAnchor` reads its target's entry into the
    visibility and matrix of its scene node. */
module Anchors {
  import opened Matrices

  datatype Option<T> = None | Some(value: T)

  /** The anchors atom: target index to the sixteen-entry array `toArray()`
      produced. It starts out empty. */
  type AnchorStore = map<nat, seq<real>>

  /** A message from the tracker's `onUpdate`; only messages whose type is
      "updateMatrix" carry a target index and a world matrix (null when the
      target is not detected). */
  datatype TrackerMessage = TrackerMessage(kind: string, targetIndex: nat, worldMatrix: Option<seq<real>>)

  const UpdateMatrixKind: string := "updateMatrix"

  /** A scene node bound to an anchor: its `visible` flag and its matrix. */
  datatype SceneNode = SceneNode(visible: bool, matrix: Matrix)

  /** `<group visible={false} matrixAutoUpdate={false}>`: hidden, with the
      identity matrix a new group starts with. */
  function InitialNode(): (n: SceneNode)
    ensures !n.visible
    ensures forall v: Vec4 :: Apply(n.matrix, v) == v
  {
    var n := SceneNode(false, Identity());
    forall v: Vec4
      ensures Apply(n.matrix, v) == v
    {
      var u := Apply(n.matrix, v);
      assert u[0] == v[0] && u[1] == v[1] && u[2] == v[2] && u[3] == v[3];
    }
    n
  }

  /** `invisibleMatrix`, set row by row to all zeros but the bottom-right
      entry. */
  function InvisibleMatrix(): (m: Matrix)
    ensures forall i :: 0 <= i < 16 ==> m[i] == (if i == 15 then 1.0 else 0.0)
  {
    var m := FromRowMajor([0.0, 0.0, 0.0, 0.0,
                           0.0, 0.0, 0.0, 0.0,
                           0.0, 0.0, 0.0, 0.0,
                           0.0, 0.0, 0.0, 1.0]);
    forall i | 0 <= i < 16
      ensures m[i] == (if i == 15 then 1.0 else 0.0)
    {
      assert m[i] == Entry(m, i % 4, i / 4);
    }
    m
  }

  /** The invisible matrix collapses every point onto the origin, so content
      carrying it has zero size wherever it is drawn. */
  lemma InvisibleCollapses(v: Vec4)
    ensures Apply(InvisibleMatrix(), v) == [0.0, 0.0, 0.0, v[3]]
  {
  }

  /** What an update message may demand of its caller: a non-null pose is
      multiplied by `postMatrixs[targetIndex]`, which must already exist, and
      is read through `fromArray`, which takes sixteen entries. A null pose
      reads neither. */
  predicate Deliverable(post: seq<Matrix>, msg: TrackerMessage)
  {
    msg.kind == UpdateMatrixKind && msg.worldMatrix.Some? ==>
      msg.targetIndex < |post| && |msg.worldMatrix.value| >= 16
  }

  /** The value stored for an update: the invisible matrix for a null pose,
      otherwise the pose times the target's post-transform. */
  function AnchorPose(post: seq<Matrix>, index: nat, worldMatrix: Option<seq<real>>): (m: Matrix)
    requires worldMatrix.Some? ==> index < |post| && |worldMatrix.value| >= 16
    ensures worldMatrix.None? ==> m == InvisibleMatrix()
    ensures worldMatrix.Some? ==> forall v: Vec4 ::
              Apply(m, v) == Apply(FromArray(worldMatrix.value), Apply(post[index], v))
  {
    match worldMatrix
    case None => InvisibleMatrix()
    case Some(w) =>
      var m := Mul(FromArray(w), post[index]);
      forall v: Vec4
        ensures Apply(m, v) == Apply(FromArray(w), Apply(post[index], v))
      {
        ApplyMul(FromArray(w), post[index], v);
      }
      m
  }

  /** `controller.onUpdate`: an "updateMatrix" message replaces the entry of
      its target, inserting it if absent, and leaves every other entry as it
      was; any other message leaves the store unchanged. */
  function OnUpdate(store: AnchorStore, post: seq<Matrix>, msg: TrackerMessage): (s: AnchorStore)
    requires Deliverable(post, msg)
    ensures msg.kind != UpdateMatrixKind ==> s == store
    ensures msg.kind == UpdateMatrixKind ==>
              && s.Keys == store.Keys + {msg.targetIndex}
              && s[msg.targetIndex] == AnchorPose(post, msg.targetIndex, msg.worldMatrix)
    ensures forall k :: k in store && k != msg.targetIndex ==> k in s && s[k] == store[k]
  {
    if msg.kind == UpdateMatrixKind then
      store[msg.targetIndex := AnchorPose(post, msg.targetIndex, msg.worldMatrix)]
    else
      store
  }

  /** Every stored value is a full sixteen-entry matrix. */
  predicate WellFormed(store: AnchorStore)
  {
    forall k :: k in store ==> |store[k]| == 16
  }

  /** A sequence of messages applied in arrival order. */
  function ApplyAll(store: AnchorStore, post: seq<Matrix>, msgs: seq<TrackerMessage>): (s: AnchorStore)
    requires forall i :: 0 <= i < |msgs| ==> Deliverable(post, msgs[i])
    ensures WellFormed(store) ==> WellFormed(s)
    decreases |msgs|
  {
    if |msgs| == 0 then store
    else OnUpdate(ApplyAll(store, post, msgs[..|msgs| - 1]), post, msgs[|msgs| - 1])
  }

  predicate UpdatesTarget(msg: TrackerMessage, target: nat)
  {
    msg.kind == UpdateMatrixKind && msg.targetIndex == target
  }

  /** No message after position i updates `target`. */
  predicate IsLastFor(msgs: seq<TrackerMessage>, i: nat, target: nat)
  {
    forall j :: i < j < |msgs| ==> !UpdatesTarget(msgs[j], target)
  }

  /** The last message in `msgs` that updates `target`, if any. */
  function LastUpdate(msgs: seq<TrackerMessage>, target: nat): (r: Option<TrackerMessage>)
    ensures r.Some? ==> UpdatesTarget(r.value, target)
    ensures r.Some? ==>
              exists i :: 0 <= i < |msgs| && msgs[i] == r.value && IsLastFor(msgs, i, target)
    ensures r.None? ==> forall i :: 0 <= i < |msgs| ==> !UpdatesTarget(msgs[i], target)
    decreases |msgs|
  {
    if |msgs| == 0 then None
    else if UpdatesTarget(msgs[|msgs| - 1], target) then Some(msgs[|msgs| - 1])
    else LastUpdate(msgs[..|msgs| - 1], target)
  }

  /** Last writer wins: after a run of messages, a target's entry is the pose
      of the last message for it, or its entry from before the run when no
      message named it. Earlier poses leave no trace. */
  lemma {:induction false} LastWriterWins(store: AnchorStore, post: seq<Matrix>, msgs: seq<TrackerMessage>, target: nat)
    requires forall i :: 0 <= i < |msgs| ==> Deliverable(post, msgs[i])
    ensures LastUpdate(msgs, target).None? ==>
              (target in ApplyAll(store, post, msgs) <==> target in store)
              && (target in store ==> ApplyAll(store, post, msgs)[target] == store[target])
    ensures LastUpdate(msgs, target).Some? ==>
              var m := LastUpdate(msgs, target).value;
              && Deliverable(post, m)
              && target in ApplyAll(store, post, msgs)
              && ApplyAll(store, post, msgs)[target] == AnchorPose(post, target, m.worldMatrix)
    decreases |msgs|
  {
    if |msgs| > 0 {
      var init := msgs[..|msgs| - 1];
      var last := msgs[|msgs| - 1];
      assert forall i :: 0 <= i < |init| ==> init[i] == msgs[i];
      LastWriterWins(store, post, init, target);
      if !UpdatesTarget(last, target) {
        assert LastUpdate(msgs, target) == LastUpdate(init, target);
        if LastUpdate(init, target).Some? {
          var m := LastUpdate(init, target).value;
          var k :| 0 <= k < |init| && init[k] == m;
          assert Deliverable(post, msgs[k]);
        }
      }
    }
  }

  /** `ARAnchor`'s effect: nothing happens before the node is mounted or while
      the tracker's input width is 0; otherwise the node is shown with the
      stored matrix when its target has an entry, and hidden (its matrix
      untouched) when it has none. Any stored array counts as present, even
      the invisible matrix. */
  function Bind(node: Option<SceneNode>, inputWidth: real, anchors: AnchorStore, target: nat): (r: Option<SceneNode>)
    requires target in anchors ==> |anchors[target]| >= 16
    ensures node.None? || inputWidth == 0.0 ==> r == node
    ensures node.Some? && inputWidth != 0.0 ==>
              && r.Some?
              && (r.value.visible <==> target in anchors)
              && (target in anchors ==> r.value.matrix == anchors[target][..16])
              && (target !in anchors ==> r.value.matrix == node.value.matrix)
  {
    match node
    case None => None
    case Some(n) =>
      if inputWidth == 0.0 then node
      else if target in anchors then Some(SceneNode(true, FromArray(anchors[target])))
      else Some(SceneNode(false, n.matrix))
  }

  /** A target the tracker has never reported stays hidden. */
  lemma BindBeforeAnyUpdate(node: SceneNode, inputWidth: real, post: seq<Matrix>,
                            msgs: seq<TrackerMessage>, target: nat)
    requires inputWidth != 0.0
    requires forall i :: 0 <= i < |msgs| ==> Deliverable(post, msgs[i])
    requires forall i :: 0 <= i < |msgs| ==> !UpdatesTarget(msgs[i], target)
    ensures target !in ApplyAll(map[], post, msgs)
    ensures Bind(Some(node), inputWidth, ApplyAll(map[], post, msgs), target) == Some(SceneNode(false, node.matrix))
  {
    LastWriterWins(map[], post, msgs, target);
  }

  /** Once a target has been reported, by a pose or by a null pose, its node
      is shown with the pose of the last report; a lost target therefore
      stays visible and is hidden only by the invisible matrix collapsing
      its content. */
  lemma BindAfterUpdates(node: SceneNode, inputWidth: real, store: AnchorStore, post: seq<Matrix>,
                         msgs: seq<TrackerMessage>, target: nat)
    requires inputWidth != 0.0 && WellFormed(store)
    requires forall i :: 0 <= i < |msgs| ==> Deliverable(post, msgs[i])
    requires LastUpdate(msgs, target).Some?
    ensures Deliverable(post, LastUpdate(msgs, target).value)
    ensures Bind(Some(node), inputWidth, ApplyAll(store, post, msgs), target)
         == Some(SceneNode(true, AnchorPose(post, target, LastUpdate(msgs, target).value.worldMatrix)))
  {
    LastWriterWins(store, post, msgs, target);
  }

  /** After a null pose the node is visible and carries the invisible
      matrix, whatever its state was; every point of its content collapses
      onto the origin. */
  lemma BindAfterLost(node: SceneNode, inputWidth: real, store: AnchorStore, post: seq<Matrix>, target: nat)
    requires inputWidth != 0.0 && WellFormed(store)
    ensures
      var s := OnUpdate(store, post, TrackerMessage(UpdateMatrixKind, target, None));
      && Bind(Some(node), inputWidth, s, target) == Some(SceneNode(true, InvisibleMatrix()))
      && forall v: Vec4 :: Apply(Bind(Some(node), inputWidth, s, target).value.matrix, v) == [0.0, 0.0, 0.0, v[3]]
  {
  }

  /** An update for one target never changes what another target's node
      shows. */
  lemma BindIgnoresOtherTargets(node: Option<SceneNode>, inputWidth: real, store: AnchorStore,
                                post: seq<Matrix>, msg: TrackerMessage, target: nat)
    requires WellFormed(store) && Deliverable(post, msg)
    requires msg.targetIndex != target
    ensures target in OnUpdate(store, post, msg) ==> |OnUpdate(store, post, msg)[target]| >= 16
    ensures Bind(node, inputWidth, OnUpdate(store, post, msg), target) == Bind(node, inputWidth, store, target)
  {
  }
}
