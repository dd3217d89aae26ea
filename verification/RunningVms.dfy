/** The running VMs seen as books: how a change to one object shows in the value of all of them. */
module RunningVms {
  import opened MarketModel
  import opened Controllers

  ghost function AllControllers(vms: seq<LibvirtVm>): set<LibvirtVcpu>
    reads vms
  {
    set vm, c | vm in vms && c in vm.controllers :: c
  }

  /** The VMs are different objects, and each owns its controllers. */
  ghost predicate Linked(vms: seq<LibvirtVm>)
    reads vms
  {
    && (forall i, j :: 0 <= i < j < |vms| ==> vms[i] != vms[j])
    && (forall i :: 0 <= i < |vms| ==> vms[i].Valid())
  }

  ghost function BooksOf(vms: seq<LibvirtVm>): (w: seq<Vm>)
    reads vms, AllControllers(vms)
    ensures |w| == |vms| && forall i :: 0 <= i < |vms| ==> w[i] == vms[i].View()
  {
    seq(|vms|, i requires 0 <= i < |vms| reads vms, AllControllers(vms) =>
      assert vms[i] in vms && forall c :: c in vms[i].controllers ==> c in AllControllers(vms);
      vms[i].View())
  }

  ghost predicate Present(vms: seq<LibvirtVm>, r: Ref)
    reads vms
  {
    r.vm < |vms| && r.cpu < |vms[r.vm].controllers|
  }

  /** The controllers are those the references stand for. */
  ghost predicate Resolves(vms: seq<LibvirtVm>, refs: seq<Ref>, cs: seq<LibvirtVcpu>)
    reads vms
  {
    && |cs| == |refs|
    && forall k :: 0 <= k < |refs| ==>
         Present(vms, refs[k]) && cs[k] == vms[refs[k].vm].controllers[refs[k].cpu]
  }

  lemma ViewOf(vm: LibvirtVm)
    ensures vm.View().money == vm.money && |vm.View().vcpus| == |vm.controllers|
    ensures forall j :: 0 <= j < |vm.controllers| ==> vm.View().vcpus[j] == vm.controllers[j].View()
  {
  }

  /** What the books show of one controller and its account. */
  lemma Shows(vms: seq<LibvirtVm>, r: Ref)
    requires Linked(vms) && Present(vms, r)
    ensures Has(BooksOf(vms), r) && BooksOf(vms)[r.vm].money == vms[r.vm].money
    ensures At(BooksOf(vms), r) == vms[r.vm].controllers[r.cpu].View()
    ensures At(BooksOf(vms), r).buying == vms[r.vm].controllers[r.cpu].buying
    ensures vms[r.vm].controllers[r.cpu].context == vms[r.vm]
    ensures vms[r.vm].controllers[r.cpu] in AllControllers(vms)
  {
    var vm := vms[r.vm];
    assert vm in vms && vm.controllers[r.cpu] in vm.controllers;
  }

  lemma Apart(vms: seq<LibvirtVm>, i: nat, k: nat)
    requires Linked(vms) && i < |vms| && k < |vms| && i != k
    ensures forall c :: c in vms[i].controllers ==> c !in vms[k].controllers
  {
    assert vms[i] != vms[k];
    forall c | c in vms[i].controllers ensures c !in vms[k].controllers {
      assert c.context == vms[i];
    }
  }

  /** Changing one controller, and the balance of its VM, changes the books in that place only. */
  lemma OneChange(vms: seq<LibvirtVm>, before: seq<Vm>, r: Ref)
    requires |before| == |vms| && Has(before, r) && |vms[r.vm].controllers| == |before[r.vm].vcpus|
    requires forall i :: 0 <= i < |vms| && i != r.vm ==> vms[i].View() == before[i]
    requires forall j :: 0 <= j < |before[r.vm].vcpus| && j != r.cpu ==>
               vms[r.vm].controllers[j].View() == before[r.vm].vcpus[j]
    ensures BooksOf(vms) == Put(before, r, vms[r.vm].money, vms[r.vm].controllers[r.cpu].View())
  {
    hide LibvirtVcpu.View;
    var after := Put(before, r, vms[r.vm].money, vms[r.vm].controllers[r.cpu].View());
    assert vms[r.vm].View().vcpus == after[r.vm].vcpus;
  }
}
