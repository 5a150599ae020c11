/** The Azure check `vm_ensure_using_managed_disks`
    (prowler/providers/azure/services/vm/vm_ensure_using_managed_disks/vm_ensure_using_managed_disks.py):
    one report per virtual machine of every subscription, PASS when the OS
    disk and every data disk are managed disks. The subscriptions come in as
    the `virtual_machines` dictionary of the VM service client. */
module VmManagedDisks {
  import opened Common

  datatype ManagedDisk = ManagedDisk(id: string)
  datatype OsDisk = OsDisk(name: string, managedDisk: Option<ManagedDisk>)
  datatype DataDisk = DataDisk(name: string, managedDisk: Option<ManagedDisk>)
  datatype StorageProfile = StorageProfile(osDisk: Option<OsDisk>, dataDisks: seq<DataDisk>)
  /** A cached virtual machine; `None` stands for an attribute that is missing or `None`. */
  datatype VirtualMachine = VirtualMachine(
    resourceId: string,
    resourceName: string,
    location: string,
    storageProfile: Option<StorageProfile>)

  datatype Status = Pass | Fail

  /** The fields of a `Check_Report_Azure` the check sets; `resource` is the VM it was built from. */
  datatype Report = Report(status: Status, statusExtended: string, subscription: string, resource: VirtualMachine)

  /** The specification of the disk test: an OS disk backed by a managed disk,
      and every data disk backed by one. */
  predicate UsesManagedDisks(vm: VirtualMachine)
  {
    && vm.storageProfile.Some?
    && vm.storageProfile.value.osDisk.Some?
    && vm.storageProfile.value.osDisk.value.managedDisk.Some?
    && forall k :: 0 <= k < |vm.storageProfile.value.dataDisks| ==>
         vm.storageProfile.value.dataDisks[k].managedDisk.Some?
  }

  function PassMessage(vm: VirtualMachine, subscription: string): string
  {
    "VM " + vm.resourceName + " is using" + " managed disks in subscription " + subscription
  }

  function FailMessage(vm: VirtualMachine, subscription: string): string
  {
    "VM " + vm.resourceName + " is not using" + " managed disks in subscription " + subscription
  }

  /** The report the check owes one VM of one subscription: PASS exactly when
      its OS disk and all its data disks are managed, with the message for
      that status. */
  function ReportFor(subscription: string, vm: VirtualMachine): (r: Report)
    ensures r.subscription == subscription && r.resource == vm
    ensures r.status == Pass <==> UsesManagedDisks(vm)
    ensures r.statusExtended
            == "VM " + vm.resourceName + (if r.status == Pass then " is using" else " is not using")
               + " managed disks in subscription " + subscription
  {
    if UsesManagedDisks(vm) then Report(Pass, PassMessage(vm, subscription), subscription, vm)
    else Report(Fail, FailMessage(vm, subscription), subscription, vm)
  }

  /** The (subscription, VM) pairs of the nested loop, subscriptions first, then VMs in dictionary order. */
  function Flatten(subscriptions: Items<string, Items<string, VirtualMachine>>): seq<(string, VirtualMachine)>
  {
    if subscriptions == [] then []
    else
      var last := subscriptions[|subscriptions| - 1];
      Flatten(subscriptions[..|subscriptions| - 1]) + Pairs(last.0, last.1)
  }

  function Pairs(subscription: string, vms: Items<string, VirtualMachine>): (ps: seq<(string, VirtualMachine)>)
    ensures |ps| == |vms| && forall j :: 0 <= j < |vms| ==> ps[j] == (subscription, vms[j].1)
  {
    seq(|vms|, j requires 0 <= j < |vms| => (subscription, vms[j].1))
  }

  function Reports(ps: seq<(string, VirtualMachine)>): (rs: seq<Report>)
    ensures |rs| == |ps| && forall k :: 0 <= k < |ps| ==> rs[k] == ReportFor(ps[k].0, ps[k].1)
  {
    seq(|ps|, k requires 0 <= k < |ps| => ReportFor(ps[k].0, ps[k].1))
  }

  /** The number of VMs over all subscriptions. */
  function TotalVms(subscriptions: Items<string, Items<string, VirtualMachine>>): nat
  {
    if subscriptions == [] then 0 else |subscriptions[0].1| + TotalVms(subscriptions[1..])
  }

  /** Lines 16-30: the `getattr` chain for the OS disk, then a scan of the data
      disks that stops at the first one without a managed disk. */
  method ManagedDiskFlag(vm: VirtualMachine) returns (usingManagedDisks: bool)
    ensures usingManagedDisks == UsesManagedDisks(vm)
  {
    usingManagedDisks :=
      vm.storageProfile.Some? && vm.storageProfile.value.osDisk.Some?
      && vm.storageProfile.value.osDisk.value.managedDisk.Some?;
    if usingManagedDisks && vm.storageProfile.Some? {
      var disks := vm.storageProfile.value.dataDisks;
      var k := 0;
      while k < |disks|
        invariant 0 <= k <= |disks|
        invariant forall m :: 0 <= m < k ==> disks[m].managedDisk.Some?
      {
        if disks[k].managedDisk.None? {
          usingManagedDisks := false;
          break;
        }
        k := k + 1;
      }
    }
  }

  /** `execute()`. */
  method Execute(subscriptions: Items<string, Items<string, VirtualMachine>>) returns (findings: seq<Report>)
    ensures findings == Reports(Flatten(subscriptions))
  {
    findings := [];
    var i := 0;
    while i < |subscriptions|
      invariant 0 <= i <= |subscriptions|
      invariant findings == Reports(Flatten(subscriptions[..i]))
    {
      var subscriptionName := subscriptions[i].0;
      var vms := subscriptions[i].1;
      var j := 0;
      while j < |vms|
        invariant 0 <= j <= |vms|
        invariant findings == Reports(Flatten(subscriptions[..i]) + Pairs(subscriptionName, vms[..j]))
      {
        var vm := vms[j].1;
        var report := Report(Pass, PassMessage(vm, subscriptionName), subscriptionName, vm);
        var usingManagedDisks := ManagedDiskFlag(vm);
        if !usingManagedDisks {
          report := report.(status := Fail, statusExtended := FailMessage(vm, subscriptionName));
        }
        PairsSnoc(Flatten(subscriptions[..i]), subscriptionName, vms, j);
        findings := findings + [report];
        j := j + 1;
      }
      assert vms[..j] == vms;
      assert subscriptions[..i + 1][..i] == subscriptions[..i];
      i := i + 1;
    }
    assert subscriptions[..i] == subscriptions;
  }

  /** One more VM adds its report at the end. */
  lemma PairsSnoc(prefix: seq<(string, VirtualMachine)>, subscription: string, vms: Items<string, VirtualMachine>, j: int)
    requires 0 <= j < |vms|
    ensures Reports(prefix + Pairs(subscription, vms[..j + 1]))
            == Reports(prefix + Pairs(subscription, vms[..j])) + [ReportFor(subscription, vms[j].1)]
  {
    assert prefix + Pairs(subscription, vms[..j + 1]) == prefix + Pairs(subscription, vms[..j]) + [(subscription, vms[j].1)];
  }

  /** Exactly one report per VM: the findings are as many as the VMs of all
      subscriptions, and there are none exactly when there are no VMs. */
  lemma ReportCount(subscriptions: Items<string, Items<string, VirtualMachine>>)
    ensures |Reports(Flatten(subscriptions))| == TotalVms(subscriptions)
    ensures Reports(Flatten(subscriptions)) == [] <==> TotalVms(subscriptions) == 0
  {
    FlattenLength(subscriptions);
  }

  /** One (subscription, VM) pair per VM of all subscriptions. */
  lemma {:induction false} FlattenLength(subscriptions: Items<string, Items<string, VirtualMachine>>)
    ensures |Flatten(subscriptions)| == TotalVms(subscriptions)
    decreases |subscriptions|
  {
    if subscriptions != [] {
      var n := |subscriptions|;
      FlattenLength(subscriptions[..n - 1]);
      TotalVmsSnoc(subscriptions[..n - 1], subscriptions[n - 1]);
      assert subscriptions[..n - 1] + [subscriptions[n - 1]] == subscriptions;
    }
  }

  lemma {:induction false} TotalVmsSnoc(subscriptions: Items<string, Items<string, VirtualMachine>>, last: (string, Items<string, VirtualMachine>))
    ensures TotalVms(subscriptions + [last]) == TotalVms(subscriptions) + |last.1|
    decreases |subscriptions|
  {
    if subscriptions == [] {
      assert [last][1..] == [];
    } else {
      assert (subscriptions + [last])[1..] == subscriptions[1..] + [last];
      TotalVmsSnoc(subscriptions[1..], last);
    }
  }

  /** Reports come in subscription order, then VM order: the report of VM `j`
      of subscription `i` sits after the VMs of the subscriptions before `i`,
      carries that subscription's key and is the report owed to that VM. */
  lemma {:induction false} FindingPosition(subscriptions: Items<string, Items<string, VirtualMachine>>, i: int, j: int)
    requires 0 <= i < |subscriptions| && 0 <= j < |subscriptions[i].1|
    ensures TotalVms(subscriptions[..i]) + j < |Flatten(subscriptions)|
    ensures Flatten(subscriptions)[TotalVms(subscriptions[..i]) + j] == (subscriptions[i].0, subscriptions[i].1[j].1)
    decreases |subscriptions|
  {
    var n := |subscriptions|;
    var init := subscriptions[..n - 1];
    FlattenLength(init);
    FlattenLength(subscriptions);
    if i == n - 1 {
      assert subscriptions[..i] == init;
    } else {
      FindingPosition(init, i, j);
      assert init[..i] == subscriptions[..i];
    }
  }

  /** Without a storage profile or an OS disk there is no managed disk to find. */
  lemma MissingOsDiskFails(subscription: string, vm: VirtualMachine)
    requires vm.storageProfile.None? || vm.storageProfile.value.osDisk.None?
    ensures ReportFor(subscription, vm).status == Fail
  {
  }

  /** One data disk without a managed disk, at any position, fails the VM. */
  lemma UnmanagedDataDiskFails(subscription: string, vm: VirtualMachine, k: int)
    requires vm.storageProfile.Some? && 0 <= k < |vm.storageProfile.value.dataDisks|
    requires vm.storageProfile.value.dataDisks[k].managedDisk.None?
    ensures ReportFor(subscription, vm).status == Fail
  {
  }
}
