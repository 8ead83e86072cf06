/** The store of labels and devices: each device entry carries an index of its labels, which other
    actions than those of the label table keep up to date. */
module LabelIndex {

  type LabelId = nat
  type DeviceId = nat

  /** A label never changes its device. */
  datatype Label = Label(id: LabelId, device: DeviceId)

  datatype Store = Store(labels: map<LabelId, Label>, devices: map<DeviceId, seq<LabelId>>)

  datatype Action =
    | CreateLabel(l: Label)
    | FetchLabels(labels: seq<Label>)
    | DeleteLabel(l: Label)
    | AddDevices(ids: set<DeviceId>)     // creating one or fetching several
    | DeleteDevice(id: DeviceId)

  /** The list without repetitions, first occurrences kept. */
  function Uniq(xs: seq<LabelId>): seq<LabelId> {
    if xs == [] then []
    else
      var front, x := Uniq(xs[..|xs| - 1]), xs[|xs| - 1];
      if x in front then front else front + [x]
  }

  function Ids(labels: seq<Label>): seq<LabelId> {
    seq(|labels|, i requires 0 <= i < |labels| => labels[i].id)
  }

  function IdSet(labels: seq<Label>): set<LabelId> {
    set l | l in labels :: l.id
  }

  function OfDevice(labels: seq<Label>, device: DeviceId): seq<Label> {
    if labels == [] then []
    else
      var front, l := OfDevice(labels[..|labels| - 1], device), labels[|labels| - 1];
      if l.device == device then front + [l] else front
  }

  /** Entries that exist stay as they are. */
  function AddMany(table: map<LabelId, Label>, labels: seq<Label>): map<LabelId, Label> {
    if labels == [] then table
    else
      var front, l := AddMany(table, labels[..|labels| - 1]), labels[|labels| - 1];
      if l.id in front then front else front[l.id := l]
  }

  /** An index after its device's share of the labels has been added.  A device without a share is
      not touched. */
  function Added(index: seq<LabelId>, share: seq<Label>): seq<LabelId> {
    if share == [] then index else Uniq(index + Ids(share))
  }

  /** The update of one reducer: every device that has an entry gets the labels grouped under it. */
  function AddDevicesLabels(devices: map<DeviceId, seq<LabelId>>, labels: seq<Label>): map<DeviceId, seq<LabelId>> {
    map d | d in devices :: Added(devices[d], OfDevice(labels, d))
  }

  function Without(xs: seq<LabelId>, ids: set<LabelId>): seq<LabelId> {
    if xs == [] then []
    else
      var front := Without(xs[..|xs| - 1], ids);
      if xs[|xs| - 1] in ids then front else front + [xs[|xs| - 1]]
  }

  function DeleteDevicesLabels(devices: map<DeviceId, seq<LabelId>>, l: Label): map<DeviceId, seq<LabelId>> {
    map d | d in devices :: if d == l.device then Without(devices[d], {l.id}) else devices[d]
  }

  /** Each saga's consecutive puts, taken as one step. */
  function Next(s: Store, a: Action): Store {
    match a
    case CreateLabel(l) => Store(AddMany(s.labels, [l]), AddDevicesLabels(s.devices, [l]))
    case FetchLabels(ls) => Store(AddMany(s.labels, ls), AddDevicesLabels(s.devices, ls))
    case DeleteLabel(l) => Store(s.labels - {l.id}, DeleteDevicesLabels(s.devices, l))
    case AddDevices(ids) => s.(devices := map d | d in s.devices.Keys + ids :: if d in s.devices then s.devices[d] else [])
    case DeleteDevice(id) => s.(devices := s.devices - {id})
  }

  function Run(s: Store, actions: seq<Action>): Store {
    if actions == [] then s else Next(Run(s, actions[..|actions| - 1]), actions[|actions| - 1])
  }

  // ------------------------------------------------------------- ownership

  function Labels(a: Action): seq<Label> {
    match a
    case CreateLabel(l) => [l]
    case FetchLabels(ls) => ls
    case DeleteLabel(l) => [l]
    case AddDevices(_) => []
    case DeleteDevice(_) => []
  }

  /** All labels that ever occur agree on who owns them. */
  ghost predicate Owned(s: Store, a: Action, owner: LabelId -> DeviceId) {
    && (forall id :: id in s.labels ==> s.labels[id] == Label(id, owner(id)))
    && (forall l :: l in Labels(a) ==> l.device == owner(l.id))
  }

  ghost predicate NoRepeats(xs: seq<LabelId>) {
    forall i, j :: 0 <= i < j < |xs| ==> xs[i] != xs[j]
  }

  /** Each index is free of repetitions and names stored labels of its device only. */
  ghost predicate Sound(s: Store, owner: LabelId -> DeviceId) {
    && (forall id :: id in s.labels ==> s.labels[id] == Label(id, owner(id)))
    && (forall d :: d in s.devices ==> IndexSound(s.devices[d], s.labels, d, owner))
  }

  ghost predicate IndexSound(index: seq<LabelId>, labels: map<LabelId, Label>, d: DeviceId, owner: LabelId -> DeviceId) {
    NoRepeats(index) && forall id :: id in index ==> id in labels && owner(id) == d
  }

  lemma {:induction false} UniqKeeps(xs: seq<LabelId>)
    ensures NoRepeats(Uniq(xs))
    ensures forall x :: x in Uniq(xs) <==> x in xs
  {
    if xs != [] {
      UniqKeeps(xs[..|xs| - 1]);
      assert xs == xs[..|xs| - 1] + [xs[|xs| - 1]];
    }
  }

  lemma {:induction false} WithoutKeeps(xs: seq<LabelId>, ids: set<LabelId>)
    requires NoRepeats(xs)
    ensures NoRepeats(Without(xs, ids))
    ensures forall x :: x in Without(xs, ids) <==> x in xs && x !in ids
  {
    if xs != [] {
      var n := |xs| - 1;
      WithoutKeeps(xs[..n], ids);
      assert xs == xs[..n] + [xs[n]];
      assert xs[n] !in xs[..n];
    }
  }

  ghost predicate Carries(labels: seq<Label>, id: LabelId) {
    exists l :: l in labels && l.id == id
  }

  lemma {:induction false} AddManyKeeps(table: map<LabelId, Label>, labels: seq<Label>, owner: LabelId -> DeviceId)
    requires forall id :: id in table ==> table[id] == Label(id, owner(id))
    requires forall l :: l in labels ==> l.device == owner(l.id)
    ensures var after := AddMany(table, labels);
            && (forall id :: id in after ==> after[id] == Label(id, owner(id)))
            && (forall id :: id in after <==> id in table || Carries(labels, id))
  {
    if labels != [] {
      var front, l := labels[..|labels| - 1], labels[|labels| - 1];
      AddManyKeeps(table, front, owner);
      assert labels == front + [l];
      forall id ensures Carries(labels, id) <==> Carries(front, id) || id == l.id {
        if Carries(labels, id) {
          var x :| x in labels && x.id == id;
          assert x in front || x == l;
        }
        if id == l.id {
          assert l in labels;
        }
      }
    }
  }

  lemma {:induction false} OfDeviceKeeps(labels: seq<Label>, device: DeviceId)
    ensures forall l :: l in OfDevice(labels, device) <==> l in labels && l.device == device
  {
    if labels != [] {
      OfDeviceKeeps(labels[..|labels| - 1], device);
      assert labels == labels[..|labels| - 1] + [labels[|labels| - 1]];
    }
  }

  /** What one reducer makes of one index. */
  lemma AddedLabels(index: seq<LabelId>, labels: seq<Label>, device: DeviceId, owner: LabelId -> DeviceId)
    requires NoRepeats(index) && forall l :: l in labels ==> l.device == owner(l.id)
    ensures var after := Added(index, OfDevice(labels, device));
            && NoRepeats(after)
            && forall id :: id in after <==> id in index || (Carries(labels, id) && owner(id) == device)
  {
    var grouped := OfDevice(labels, device);
    var all := index + Ids(grouped);
    UniqKeeps(all);
    OfDeviceKeeps(labels, device);
    forall id ensures id in all <==> id in index || (Carries(labels, id) && owner(id) == device) {
      if id in Ids(grouped) {
        var i :| 0 <= i < |grouped| && Ids(grouped)[i] == id;
        assert grouped[i] in grouped;
        assert grouped[i] in labels && grouped[i].id == id;
      }
      if Carries(labels, id) && owner(id) == device {
        var l :| l in labels && l.id == id;
        assert l in grouped && grouped != [];
        var i :| 0 <= i < |grouped| && grouped[i] == l;
        assert Ids(grouped)[i] == id;
      }
    }
  }

  lemma AddSound(s: Store, labels: seq<Label>, owner: LabelId -> DeviceId)
    requires Sound(s, owner) && forall l :: l in labels ==> l.device == owner(l.id)
    ensures Sound(Store(AddMany(s.labels, labels), AddDevicesLabels(s.devices, labels)), owner)
  {
    AddManyKeeps(s.labels, labels, owner);
    var devices := AddDevicesLabels(s.devices, labels);
    forall d | d in devices ensures IndexSound(devices[d], AddMany(s.labels, labels), d, owner) {
      assert IndexSound(s.devices[d], s.labels, d, owner);
      AddedLabels(s.devices[d], labels, d, owner);
    }
  }

  lemma DeleteSound(s: Store, l: Label, owner: LabelId -> DeviceId)
    requires Sound(s, owner) && l.device == owner(l.id)
    ensures Sound(Next(s, DeleteLabel(l)), owner)
  {
    var devices := DeleteDevicesLabels(s.devices, l);
    forall d | d in devices ensures IndexSound(devices[d], s.labels - {l.id}, d, owner) {
      assert IndexSound(s.devices[d], s.labels, d, owner);
      WithoutKeeps(s.devices[d], {l.id});
    }
  }

  lemma StepSound(s: Store, a: Action, owner: LabelId -> DeviceId)
    requires Sound(s, owner) && Owned(s, a, owner)
    ensures Sound(Next(s, a), owner)
  {
    match a
    case CreateLabel(l) => AddSound(s, [l], owner);
    case FetchLabels(ls) => AddSound(s, ls, owner);
    case DeleteLabel(l) => DeleteSound(s, l, owner);
    case _ =>
  }

  ghost predicate AllOwned(actions: seq<Action>, owner: LabelId -> DeviceId) {
    forall i, l :: 0 <= i < |actions| && l in Labels(actions[i]) ==> l.device == owner(l.id)
  }

  lemma {:induction false} RunSound(s: Store, actions: seq<Action>, owner: LabelId -> DeviceId)
    requires Sound(s, owner) && AllOwned(actions, owner)
    ensures Sound(Run(s, actions), owner)
  {
    if actions != [] {
      var n := |actions| - 1;
      RunSound(s, actions[..n], owner);
      StepSound(Run(s, actions[..n]), actions[n], owner);
    }
  }

  // ------------------------------------------------------------- completeness

  /** A stored label of the device that the device's index does not name. */
  ghost predicate Missing(s: Store, d: DeviceId, id: LabelId, owner: LabelId -> DeviceId)
    requires d in s.devices
  {
    id in s.labels && owner(id) == d && id !in s.devices[d]
  }

  /** The labels some action of the run has carried. */
  ghost predicate Touched(actions: seq<Action>, id: LabelId) {
    exists i :: 0 <= i < |actions| && Carries(Labels(actions[i]), id)
  }

  /** An action that leaves the device in place makes up for exactly the labels it carries. */
  lemma StepMissing(s: Store, a: Action, d: DeviceId, id: LabelId, owner: LabelId -> DeviceId)
    requires Sound(s, owner) && Owned(s, a, owner)
    requires d in s.devices && a != DeleteDevice(d)
    ensures d in Next(s, a).devices
    ensures Missing(Next(s, a), d, id, owner) <==> Missing(s, d, id, owner) && !Carries(Labels(a), id)
  {
    match a
    case CreateLabel(l) => AddManyKeeps(s.labels, [l], owner); AddedLabels(s.devices[d], [l], d, owner);
    case FetchLabels(ls) => AddManyKeeps(s.labels, ls, owner); AddedLabels(s.devices[d], ls, d, owner);
    case DeleteLabel(l) =>
      WithoutKeeps(s.devices[d], {l.id});
      assert Carries([l], id) <==> id == l.id by {
        assert l in [l];
      }
    case _ =>
  }

  lemma TouchedSnoc(actions: seq<Action>, id: LabelId)
    requires actions != []
    ensures var n := |actions| - 1;
            (Touched(actions, id) <==> Touched(actions[..n], id) || Carries(Labels(actions[n]), id))
  {
    var n := |actions| - 1;
    if Touched(actions[..n], id) {
      var i :| 0 <= i < n && Carries(Labels(actions[..n][i]), id);
      assert Carries(Labels(actions[i]), id);
    }
    if Touched(actions, id) {
      var i :| 0 <= i < |actions| && Carries(Labels(actions[i]), id);
      if i < n {
        assert Carries(Labels(actions[..n][i]), id);
      }
    }
  }

  lemma {:induction false} RunMissing(s: Store, actions: seq<Action>, d: DeviceId, id: LabelId, owner: LabelId -> DeviceId)
    requires Sound(s, owner) && AllOwned(actions, owner)
    requires d in s.devices && DeleteDevice(d) !in actions
    ensures d in Run(s, actions).devices
    ensures Missing(Run(s, actions), d, id, owner) <==> Missing(s, d, id, owner) && !Touched(actions, id)
  {
    if actions != [] {
      var n := |actions| - 1;
      RunMissing(s, actions[..n], d, id, owner);
      RunSound(s, actions[..n], owner);
      TouchedSnoc(actions, id);
      StepMissing(Run(s, actions[..n]), actions[n], d, id, owner);
    }
  }

  /** A device that is added now and not removed later: its index misses exactly those labels that
      were stored before it and have not been carried by an action since.  So it is complete if and
      only if there are none left of those, and always when there were none to begin with. */
  lemma IndexCompleteness(s: Store, ids: set<DeviceId>, actions: seq<Action>, d: DeviceId, owner: LabelId -> DeviceId)
    requires Sound(s, owner) && AllOwned(actions, owner)
    requires d !in s.devices && d in ids && DeleteDevice(d) !in actions
    ensures var s' := Run(Next(s, AddDevices(ids)), actions);
            && d in s'.devices && IndexSound(s'.devices[d], s'.labels, d, owner)
            && forall id :: Missing(s', d, id, owner) <==> id in s.labels && owner(id) == d && !Touched(actions, id)
  {
    var added := Next(s, AddDevices(ids));
    StepSound(s, AddDevices(ids), owner);
    RunSound(added, actions, owner);
    RunMissing(added, actions, d, 0, owner);
    forall id
      ensures Missing(Run(added, actions), d, id, owner) <==> id in s.labels && owner(id) == d && !Touched(actions, id)
    {
      RunMissing(added, actions, d, id, owner);
    }
  }

  /** Fetching the devices after their labels is enough to leave an index behind. */
  lemma LabelsFirstLeavesAGap()
    ensures var s := Run(Store(map[], map[]), [FetchLabels([Label(7, 1)]), AddDevices({1})]);
            7 in s.labels && 1 in s.devices && 7 !in s.devices[1]
  {
    var empty, first := Store(map[], map[]), FetchLabels([Label(7, 1)]);
    var actions := [first, AddDevices({1})];
    assert actions[..1] == [first] && [first][..0] == [];
    assert [Label(7, 1)][..0] == [];
    assert Run(empty, [first]) == Next(empty, first);
    assert Run(empty, actions) == Next(Run(empty, [first]), AddDevices({1}));
  }

  // ------------------------------------------------------------- what is stored

  predicate Adds(a: Action, id: LabelId) {
    (a.CreateLabel? && a.l.id == id) || (a.FetchLabels? && exists l :: l in a.labels && l.id == id)
  }

  /** The last word on the label: some action has added it and none behind that has deleted it. */
  ghost predicate AddedForGood(actions: seq<Action>, id: LabelId) {
    exists i :: 0 <= i < |actions| && Adds(actions[i], id) && NotDeletedFrom(actions, id, i + 1)
  }

  ghost predicate NotDeletedFrom(actions: seq<Action>, id: LabelId, i: nat) {
    forall j :: i <= j < |actions| ==> !(actions[j].DeleteLabel? && actions[j].l.id == id)
  }

  lemma {:induction false} AddManyDomain(table: map<LabelId, Label>, labels: seq<Label>, id: LabelId)
    ensures id in AddMany(table, labels) <==> id in table || exists l :: l in labels && l.id == id
  {
    if labels != [] {
      var front, l := labels[..|labels| - 1], labels[|labels| - 1];
      AddManyDomain(table, front, id);
      assert labels == front + [l];
      assert l in labels;
    }
  }

  lemma StepStores(s: Store, a: Action, id: LabelId)
    ensures id in Next(s, a).labels <==>
            Adds(a, id) || (id in s.labels && !(a.DeleteLabel? && a.l.id == id))
  {
    match a
    case CreateLabel(l) =>
      AddManyDomain(s.labels, [l], id);
      assert l in [l];
    case FetchLabels(ls) => AddManyDomain(s.labels, ls, id);
    case _ =>
  }

  lemma {:induction false} AddedForGoodSnoc(actions: seq<Action>, a: Action, id: LabelId)
    ensures AddedForGood(actions + [a], id) <==>
            Adds(a, id) || (AddedForGood(actions, id) && !(a.DeleteLabel? && a.l.id == id))
    ensures NotDeletedFrom(actions + [a], id, 0) <==>
            NotDeletedFrom(actions, id, 0) && !(a.DeleteLabel? && a.l.id == id)
  {
    var all := actions + [a];
    assert all[|actions|] == a && forall i :: 0 <= i < |actions| ==> all[i] == actions[i];
    if Adds(a, id) {
      assert NotDeletedFrom(all, id, |actions| + 1);
    }
    if AddedForGood(actions, id) && !(a.DeleteLabel? && a.l.id == id) {
      var i :| 0 <= i < |actions| && Adds(actions[i], id) && NotDeletedFrom(actions, id, i + 1);
      assert Adds(all[i], id) && NotDeletedFrom(all, id, i + 1);
    }
    if AddedForGood(all, id) && !Adds(a, id) {
      var i :| 0 <= i < |all| && Adds(all[i], id) && NotDeletedFrom(all, id, i + 1);
      assert Adds(actions[i], id) && NotDeletedFrom(actions, id, i + 1);
    }
  }

  /** Over every run, a label is stored if and only if it has been created or fetched and not deleted
      since, or was there at the beginning and has never been deleted. */
  lemma {:induction false} StoredLabels(s: Store, actions: seq<Action>, id: LabelId)
    ensures id in Run(s, actions).labels <==>
            AddedForGood(actions, id) || (id in s.labels && NotDeletedFrom(actions, id, 0))
  {
    if actions != [] {
      var n := |actions| - 1;
      StoredLabels(s, actions[..n], id);
      StepStores(Run(s, actions[..n]), actions[n], id);
      AddedForGoodSnoc(actions[..n], actions[n], id);
      assert actions == actions[..n] + [actions[n]];
    }
  }

  ghost predicate NotRemovedFrom(actions: seq<Action>, d: DeviceId, i: nat) {
    forall j :: i <= j < |actions| ==> actions[j] != DeleteDevice(d)
  }

  predicate AddsDevice(a: Action, d: DeviceId) {
    a.AddDevices? && d in a.ids
  }

  ghost predicate PresentForGood(actions: seq<Action>, d: DeviceId) {
    exists i :: 0 <= i < |actions| && AddsDevice(actions[i], d) && NotRemovedFrom(actions, d, i + 1)
  }

  lemma {:induction false} PresentForGoodSnoc(actions: seq<Action>, a: Action, d: DeviceId)
    ensures PresentForGood(actions + [a], d) <==>
            AddsDevice(a, d) || (PresentForGood(actions, d) && a != DeleteDevice(d))
    ensures NotRemovedFrom(actions + [a], d, 0) <==> NotRemovedFrom(actions, d, 0) && a != DeleteDevice(d)
  {
    var all := actions + [a];
    assert all[|actions|] == a && forall i :: 0 <= i < |actions| ==> all[i] == actions[i];
    if AddsDevice(a, d) {
      assert NotRemovedFrom(all, d, |actions| + 1);
    }
    if PresentForGood(actions, d) && a != DeleteDevice(d) {
      var i :| 0 <= i < |actions| && AddsDevice(actions[i], d) && NotRemovedFrom(actions, d, i + 1);
      assert AddsDevice(all[i], d) && NotRemovedFrom(all, d, i + 1);
    }
    if PresentForGood(all, d) && !AddsDevice(a, d) {
      var i :| 0 <= i < |all| && AddsDevice(all[i], d) && NotRemovedFrom(all, d, i + 1);
      assert AddsDevice(actions[i], d) && NotRemovedFrom(actions, d, i + 1);
    }
  }

  /** The same for devices. */
  lemma {:induction false} StoredDevices(s: Store, actions: seq<Action>, d: DeviceId)
    ensures d in Run(s, actions).devices <==>
            PresentForGood(actions, d) || (d in s.devices && NotRemovedFrom(actions, d, 0))
  {
    if actions != [] {
      var n := |actions| - 1;
      StoredDevices(s, actions[..n], d);
      PresentForGoodSnoc(actions[..n], actions[n], d);
      assert actions == actions[..n] + [actions[n]];
    }
  }

  /** A label that is created or fetched while its device is stored is in the device's index, until one
      of them is removed. */
  lemma CreatedIsIndexed(s: Store, actions: seq<Action>, d: DeviceId, id: LabelId, owner: LabelId -> DeviceId)
    requires Sound(s, owner) && AllOwned(actions, owner) && owner(id) == d
    requires d in s.devices && DeleteDevice(d) !in actions && AddedForGood(actions, id)
    ensures var s' := Run(s, actions);
            && id in s'.labels && s'.labels[id] == Label(id, d)
            && d in s'.devices && id in s'.devices[d]
  {
    StoredLabels(s, actions, id);
    RunSound(s, actions, owner);
    RunMissing(s, actions, d, id, owner);
    var i :| 0 <= i < |actions| && Adds(actions[i], id) && NotDeletedFrom(actions, id, i + 1);
    if actions[i].CreateLabel? {
      assert actions[i].l in Labels(actions[i]);
    }
    assert Carries(Labels(actions[i]), id);
  }

  // ------------------------------------------------------------- order

  /** An index keeps its order when labels are added: whatever it lists, first appears in the joined
      list behind all that is listed before. */
  lemma {:induction false} UniqInOrder(xs: seq<LabelId>, i: nat, j: nat) returns (q: nat)
    requires i < j < |Uniq(xs)|
    ensures q < |xs| && xs[q] == Uniq(xs)[j] && Uniq(xs)[i] in xs[..q] && Uniq(xs)[j] !in xs[..q]
  {
    var n := |xs| - 1;
    var front := Uniq(xs[..n]);
    UniqKeeps(xs[..n]);
    if j < |front| {
      q := UniqInOrder(xs[..n], i, j);
      assert xs[..n][..q] == xs[..q];
    } else {
      q := n;
    }
  }

  lemma {:induction false} UniqOfUnique(xs: seq<LabelId>)
    requires NoRepeats(xs)
    ensures Uniq(xs) == xs
  {
    if xs != [] {
      var n := |xs| - 1;
      UniqOfUnique(xs[..n]);
      assert xs == xs[..n] + [xs[n]];
    }
  }

  lemma {:induction false} UniqExtends(xs: seq<LabelId>, ys: seq<LabelId>)
    ensures Uniq(xs) <= Uniq(xs + ys)
  {
    if ys == [] {
      assert xs + ys == xs;
    } else {
      var n := |ys| - 1;
      UniqExtends(xs, ys[..n]);
      assert (xs + ys)[..|xs + ys| - 1] == xs + ys[..n];
    }
  }

  /** Added labels go behind those that an index lists already. */
  lemma AddedGoBehind(index: seq<LabelId>, share: seq<Label>)
    requires NoRepeats(index)
    ensures index <= Added(index, share)
  {
    UniqOfUnique(index);
    UniqExtends(index, Ids(share));
  }

  /** A device's share of a list keeps the list's order. */
  lemma {:induction false} OfDeviceAppend(xs: seq<Label>, ys: seq<Label>, device: DeviceId)
    ensures OfDevice(xs + ys, device) == OfDevice(xs, device) + OfDevice(ys, device)
  {
    if ys == [] {
      assert xs + ys == xs;
    } else {
      var n := |ys| - 1;
      OfDeviceAppend(xs, ys[..n], device);
      assert (xs + ys)[..|xs + ys| - 1] == xs + ys[..n];
    }
  }

  /** Filtering drops what is deleted and leaves the rest in place. */
  lemma {:induction false} WithoutAppend(xs: seq<LabelId>, ys: seq<LabelId>, ids: set<LabelId>)
    ensures Without(xs + ys, ids) == Without(xs, ids) + Without(ys, ids)
    ensures forall x :: Without([x], ids) == if x in ids then [] else [x]
  {
    forall x ensures Without([x], ids) == if x in ids then [] else [x] {
      assert [x][..0] == [];
    }
    if ys == [] {
      assert xs + ys == xs;
    } else {
      var n := |ys| - 1;
      WithoutAppend(xs, ys[..n], ids);
      assert (xs + ys)[..|xs + ys| - 1] == xs + ys[..n];
    }
  }

  // ------------------------------------------------------------- the class

  class Slices {
    var labels: map<LabelId, Label>
    var devices: map<DeviceId, seq<LabelId>>

    function View(): Store
      reads this
    {
      Store(labels, devices)
    }

    constructor ()
      ensures View() == Store(map[], map[])
    {
      labels, devices := map[], map[];
    }

    /** Reducer of the label table. */
    method PutLabels(added: seq<Label>)
      modifies this`labels
      ensures labels == AddMany(old(labels), added)
    {
      for i := 0 to |added|
        invariant labels == AddMany(old(labels), added[..i])
      {
        assert added[..i + 1][..i] == added[..i];
        if added[i].id !in labels {
          labels := labels[added[i].id := added[i]];
        }
      }
      assert added[..|added|] == added;
    }

    /** The library's update of several entries: those that do not exist are passed over. */
    method UpdateMany(updates: map<DeviceId, seq<LabelId>>)
      modifies this`devices
      ensures devices == map d | d in old(devices) :: if d in updates then updates[d] else old(devices)[d]
    {
      var rest := updates.Keys;
      while rest != {}
        invariant rest <= updates.Keys && devices.Keys == old(devices.Keys)
        invariant forall d :: d in devices ==>
                    devices[d] == if d in updates && d !in rest then updates[d] else old(devices)[d]
      {
        var id :| id in rest;
        if id in devices {
          devices := devices[id := updates[id]];
        }
        rest := rest - {id};
      }
    }

    /** Reducer of the device table for added labels, keyed by their device. */
    method PutDevicesLabels(groups: map<DeviceId, seq<Label>>)
      modifies this`devices
      ensures devices == map d | d in old(devices) ::
                if d in groups then Uniq(old(devices)[d] + Ids(groups[d])) else old(devices)[d]
    {
      var updates, rest := map[], groups.Keys;
      while rest != {}
        invariant devices == old(devices) && rest <= groups.Keys && updates.Keys == groups.Keys - rest
        invariant forall d :: d in updates ==>
                    updates[d] == Uniq((if d in devices then devices[d] else []) + Ids(groups[d]))
      {
        var id :| id in rest;
        var unique := ListUniq((if id in devices then devices[id] else []) + Ids(groups[id]));
        updates, rest := updates[id := unique], rest - {id};
      }
      UpdateMany(updates);
    }

    /** Reducer of the device table for deleted labels, keyed by their device. */
    method RemoveDevicesLabels(groups: map<DeviceId, seq<Label>>)
      modifies this`devices
      ensures devices == map d | d in old(devices) ::
                if d in groups then Without(old(devices)[d], IdSet(groups[d])) else old(devices)[d]
    {
      var updates, rest := map[], groups.Keys;
      while rest != {}
        invariant devices == old(devices) && rest <= groups.Keys && updates.Keys == groups.Keys - rest
        invariant forall d :: d in updates ==>
                    updates[d] == Without(if d in devices then devices[d] else [], IdSet(groups[d]))
      {
        var id :| id in rest;
        var kept := Filter(if id in devices then devices[id] else [], IdSet(groups[id]));
        updates, rest := updates[id := kept], rest - {id};
      }
      UpdateMany(updates);
    }

    method CreateLabel(l: Label)
      modifies this
      ensures View() == Next(old(View()), Action.CreateLabel(l))
    {
      PutLabels([l]);
      PutDevicesLabels(map[l.device := [l]]);
      assert [l][..0] == [];
      assert forall d :: OfDevice([l], d) == if l.device == d then [l] else [];
      assert devices == AddDevicesLabels(old(devices), [l]);
    }

    method FetchLabels(fetched: seq<Label>)
      modifies this
      ensures View() == Next(old(View()), Action.FetchLabels(fetched))
    {
      PutLabels(fetched);
      var groups := GroupByDeviceId(fetched);
      PutDevicesLabels(groups);
      assert devices == AddDevicesLabels(old(devices), fetched);
    }

    method DeleteLabel(l: Label)
      modifies this
      ensures View() == Next(old(View()), Action.DeleteLabel(l))
    {
      RemoveDevicesLabels(map[l.device := [l]]);
      assert IdSet([l]) == {l.id};
      assert devices == DeleteDevicesLabels(old(devices), l);
      labels := labels - {l.id};
    }

    method AddDevices(ids: set<DeviceId>)
      modifies this`devices
      ensures View() == Next(old(View()), Action.AddDevices(ids))
    {
      devices := map d | d in devices.Keys + ids :: if d in devices then devices[d] else [];
    }

    method DeleteDevice(id: DeviceId)
      modifies this`devices
      ensures View() == Next(old(View()), Action.DeleteDevice(id))
    {
      devices := devices - {id};
    }
  }

  method ListUniq(xs: seq<LabelId>) returns (unique: seq<LabelId>)
    ensures unique == Uniq(xs)
  {
    unique := [];
    for i := 0 to |xs|
      invariant unique == Uniq(xs[..i])
    {
      assert xs[..i + 1][..i] == xs[..i];
      if xs[i] !in unique {
        unique := unique + [xs[i]];
      }
    }
    assert xs[..|xs|] == xs;
  }

  method Filter(xs: seq<LabelId>, deleted: set<LabelId>) returns (kept: seq<LabelId>)
    ensures kept == Without(xs, deleted)
  {
    kept := [];
    for i := 0 to |xs|
      invariant kept == Without(xs[..i], deleted)
    {
      assert xs[..i + 1][..i] == xs[..i];
      if xs[i] !in deleted {
        kept := kept + [xs[i]];
      }
    }
    assert xs[..|xs|] == xs;
  }

  /** Every label in the group of its device, in the order of the list; no empty groups. */
  method GroupByDeviceId(labels: seq<Label>) returns (groups: map<DeviceId, seq<Label>>)
    ensures forall d :: d in groups <==> OfDevice(labels, d) != []
    ensures forall d :: d in groups ==> groups[d] == OfDevice(labels, d)
  {
    groups := map[];
    for i := 0 to |labels|
      invariant forall d :: d in groups <==> OfDevice(labels[..i], d) != []
      invariant forall d :: d in groups ==> groups[d] == OfDevice(labels[..i], d)
    {
      assert labels[..i + 1][..i] == labels[..i];
      var l := labels[i];
      groups := groups[l.device := (if l.device in groups then groups[l.device] else []) + [l]];
    }
    assert labels[..|labels|] == labels;
  }
}
