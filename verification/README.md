# Storage and cloud controllers

A Dafny model of the state machines and string formats inside a collection of Kubernetes storage
and cloud controllers, with proofs about whole runs of them. Network calls, commands and clocks are
nondeterministic: a call may fail, and where it writes something it may fail with or without having
written it.

Each component comes in up to three layers. Code that updates state in place is a class with the
same branches as the original, whose methods are proved against specification functions or against
steps of a protocol. A protocol module states which steps of the parties may interleave, one lock or
one API call a step. Its lemmas say what holds in every state of every run.

- **GCE load balancer** (`gce_cloud`, `gce_load_balancer`): the rebuild of address, firewall, pool,
  health check and rule with its two flags and deferred release. Every API call of a run is recorded
  and must keep two disciplines; the run theorems follow from the disciplines alone.
- **Local volumes** (`proc_table`, `cleanup_protocol`, `clean_before_delete`, `stale_cache`,
  `local_volume_controller`): the deleter's and discoverer's loop, cleaner goroutines and informers.
- **NFS** (`text`, `projects_file`, `id_allocation`, `quotas`, `quota_protocol`, `exports`,
  `export_read_back`, `export_removal`, `exporter`): id sets that must agree with files of printed blocks, across
  rollback, restart and interleaving.
- **AWS** (`device_allocator`, `volume_attach`, `attach_protocol`, `attach_calls`, `security_groups`,
  `elb_listeners`): device names, ingress rules, listeners and proxy policies.
- **Ceph** (`ceph_caps`): capability strings edited as token sets.
- **Snapshots** (`snapshot_conditions`, `snapshot_protocol`, `snapshot_convergence`,
  `snapshot_prospects`, `snapshot_failures`, `snapshot_reconciler`): condition histories, and desired
  and actual state: how they converge and what failures leave behind.
- **Gluster** (`gluster_annotations`): annotation strings printed at provisioning, parsed at deletion.

Where the code does not do what its comments say, the model follows the code. What was found that way:

- A pool that is rebuilt in the same call that corrects a drifted health check puts the old health
  check parameters back, and a health check that is no longer wanted stays when there is no pool to
  delete it with (`GceLoadBalancer.WantedHealthCheckIff`, `GceLoadBalancer.HealthCheckMissed`).
- A conflicting firewall update counts as success (`GceLoadBalancer.ConflictLeavesFirewall`), and a
  firewall's protocol is never compared (`GceLoadBalancer.ChangeProtocol`).
- A pass of DeletePVs over a cache that still shows a deleted PV can go on to delete its successor
  uncleaned, and such a pass does come (`StaleCache.CurrentCacheNeeded`, `StaleCache.StaleCacheArises`).
- Two Ceph shares of one pool without namespaces share their osd capability
  (`CephCaps.ExactIffSeparate`, `CephCaps.SharedPoolLosesAccess`).
- A snapshot's deletion that fails after it has deleted the VolumeSnapshotData leaves the snapshot in
  the actual state for good: every later deletion fails where its comment has it finish
  (`SnapshotFailures.GetsStuck`, `SnapshotFailures.StuckStays`).
- A creation that fails after it has taken a snapshot leaves it on the storage for good, and a retry can
  take another (`SnapshotFailures.FailedCreationOrphans`, `SnapshotFailures.RetryTakesAnother`).
- Where a change of a VolumeSnapshot's conditions fails to reach the VolumeSnapshotData, repeating the
  report counts as success and carries nothing over; the first report of anything else makes up for
  the loss or leaves the histories apart for good (`SnapshotConditions.FirstChangeDecides`).
- A snapshot that turns ready in an update that fails crashes the operation instead of counting as
  created (`SnapshotConditions.ApiServer.WaitForSnapshot`).
- An NFS path that holds the text of a mention, such as "fsid=7", reserves a further id at a restart
  (`ExportReadBack.OnlyIdAddedIff`).
- Security group permissions with several user groups are not split (`SecurityGroups.Ungroup`).
- Gluster annotation values with colons come back cut off (`GlusterAnnotations.ArgsRoundTrip`).

## Model

| member | source | states |
|---|---|---|
| GceLoadBalancer.ServeAll | ceph/ceph/external-storage/snapshot/pkg/cloudprovider/providers/gce/gce.go:583-866 | Any sequence of EnsureLoadBalancer calls that request no address, each free to fail at any API call: after every single API call of the run the load balancer is fully created if its rule exists, rule and reservation agree, every address a rule ever held stays held and no other is, and every address returned is that one |
| GceLoadBalancer.Gce.EnsureLoadBalancer | ceph/ceph/external-storage/snapshot/pkg/cloudprovider/providers/gce/gce.go:583-866 | No API call it makes can break the fully-created invariant or, with no requested address, lose the address; a success from any state leaves rule, firewall, pool and health check as the service asks (with the two deviations that HealthCheckSettled spells out), and the address returned is the rule's; its firewall is the wanted one, protocol included, if and only if the one before did not pass the comparison with another protocol and no update that met a conflict left it alone, and the health check is the wanted one if and only if MissesHealthCheck does not hold before |
| GceCloud.CreatedThroughout | ceph/ceph/external-storage/snapshot/pkg/cloudprovider/providers/gce/gce.go:626-630 | "If the forwarding rule exists, the load balancer has been fully created" survives every call of every run that deletes pools only without a rule and inserts rules only over pool and firewall |
| GceCloud.AddressStable | ceph/ceph/external-storage/snapshot/pkg/cloudprovider/providers/gce/gce.go:616-624 | Over any disciplined run, from the moment a rule has held an address, rule or reservation hold it and neither holds another |
| GceLoadBalancer.Gce.Rebuild | ceph/ceph/external-storage/snapshot/pkg/cloudprovider/providers/gce/gce.go:662-866 | From reservation to rule: what is true of flags, address and resources at every exit, success or not; the release flag is set only while a rule holds the address or none ever did |
| GceLoadBalancer.Gce.ChooseAddress | ceph/ceph/external-storage/snapshot/pkg/cloudprovider/providers/gce/gce.go:662-716 | The address used and the two flags: without a requested address the one reserved, with one either the user's own as it is or the rule's, then reserved, and no other |
| GceLoadBalancer.Gce.ReplacePoolAndRule | ceph/ceph/external-storage/snapshot/pkg/cloudprovider/providers/gce/gce.go:750-860 | The rule goes before the pool and comes back after it; the pool is replaced exactly when it is stale, the rule exactly when it or the pool needs it |
| GceLoadBalancer.Gce.CheckPool | ceph/ceph/external-storage/snapshot/pkg/cloudprovider/providers/gce/gce.go:750-789 | Whether the pool is to be replaced, as a function of the cloud before the call, and the health check that a new pool is built from |
| GceLoadBalancer.Gce.BuildTargetPool | ceph/ceph/external-storage/snapshot/pkg/cloudprovider/providers/gce/gce.go:820-847 | A new pool ends up with all hosts, over and under the limit of 200 a creation |
| GceLoadBalancer.MembersToChange | ceph/ceph/external-storage/snapshot/pkg/cloudprovider/providers/gce/gce.go:1380-1400 | The two sets turn the existing members into exactly the given hosts, and only leavers are removed |
| GceLoadBalancer.Gce.UpdateTargetPool | ceph/ceph/external-storage/snapshot/pkg/cloudprovider/providers/gce/gce.go:1380-1429 | A success leaves exactly the given hosts as members, and means that no host was given twice |
| GceLoadBalancer.Gce.EnsureStaticIP | ceph/ceph/external-storage/snapshot/pkg/cloudprovider/providers/gce/gce.go:1320-1358 | Reserves or adopts; never changes a reservation that is there, and returns the reserved address |
| GceLoadBalancer.Gce.DeleteStaticIP | ceph/ceph/external-storage/snapshot/pkg/cloudprovider/providers/gce/gce.go:1555-1569 | Releasing touches nothing but the reservation, and a success leaves none |
| GceLoadBalancer.WantedHealthCheckIff | ceph/ceph/external-storage/snapshot/pkg/cloudprovider/providers/gce/gce.go:750-847 | The health check left is the wanted one unless another one was there and the pool was replaced or, if none is wanted, missing |
| GceLoadBalancer.HealthCheckMissed | ceph/ceph/external-storage/snapshot/pkg/cloudprovider/providers/gce/gce.go:750-847 | Services and clouds for which it is not |
| GceLoadBalancer.ChangeProtocol | ceph/ceph/external-storage/snapshot/pkg/cloudprovider/providers/gce/gce.go:1019-1055 | Every success for a service that has changed its protocol and kept its ports leaves a rule for the new protocol and the firewall for the old one |
| GceLoadBalancer.Gce.SyncFirewall | ceph/ceph/external-storage/snapshot/pkg/cloudprovider/providers/gce/gce.go:725-748 | A success leaves the firewall that was there if it passed the comparison, else the wanted one, unless an update that met a conflict, which the code takes for success, left the old one |
| GceLoadBalancer.WantedFirewallIff | ceph/ceph/external-storage/snapshot/pkg/cloudprovider/providers/gce/gce.go:1019-1055 | Exactly when the firewall left is the wanted one, protocol included |
| GceLoadBalancer.ProtocolChangeLost | ceph/ceph/external-storage/snapshot/pkg/cloudprovider/providers/gce/gce.go:1028-1040 | A firewall made for another protocol and the same port numbers always passes the comparison |
| GceLoadBalancer.FromTcpToUdp | ceph/ceph/external-storage/snapshot/pkg/cloudprovider/providers/gce/gce.go:1028-1040 | A service on port 53 that goes from TCP to UDP keeps a TCP firewall |
| GceLoadBalancer.ConflictLeavesFirewall | ceph/ceph/external-storage/snapshot/pkg/cloudprovider/providers/gce/gce.go:1162-1178 | An update may be answered with a conflict and leave a firewall that does not match |
| GceLoadBalancer.Gce.EnsureHTTPHealthCheck | ceph/ceph/external-storage/snapshot/pkg/cloudprovider/providers/gce/gce.go:872-913 | A success leaves the wanted parameters on GCE but returns those that were read before a correction |
| GceLoadBalancer.Gce.DeleteForwardingRule | ceph/ceph/external-storage/snapshot/pkg/cloudprovider/providers/gce/gce.go:1471-1485 | A success leaves no rule; nothing else changes |
| GceLoadBalancer.Gce.DeleteTargetPool | ceph/ceph/external-storage/snapshot/pkg/cloudprovider/providers/gce/gce.go:1505-1536 | A success leaves neither the pool nor the health check given with it |
| GceLoadBalancer.Gce.CreateTargetPool | ceph/ceph/external-storage/snapshot/pkg/cloudprovider/providers/gce/gce.go:1107-1142 | A success leaves the pool with the given hosts and restores the given health check |
| GceLoadBalancer.Gce.CreateForwardingRule | ceph/ceph/external-storage/snapshot/pkg/cloudprovider/providers/gce/gce.go:1080-1105 | A success where there was no rule leaves exactly the wanted one |
| GceLoadBalancer.Gce.ForwardingRuleNeedsUpdate | ceph/ceph/external-storage/snapshot/pkg/cloudprovider/providers/gce/gce.go:919-954 | For a rule that exists, "no update" is reported exactly if it is the wanted one on its own address, and on the requested one if any |
| GceLoadBalancer.Gce.TargetPoolNeedsUpdate | ceph/ceph/external-storage/snapshot/pkg/cloudprovider/providers/gce/gce.go:981-1004 | An update is needed exactly if there is no pool or its affinity is another |
| GceLoadBalancer.LoadBalancerPortRange | ceph/ceph/external-storage/snapshot/pkg/cloudprovider/providers/gce/gce.go:956-977 | Fails without ports and for a first port that is neither TCP nor UDP; else the span of the ports |
| GceLoadBalancer.SpanIsSmallest | ceph/ceph/external-storage/snapshot/pkg/cloudprovider/providers/gce/gce.go:956-977 | That span covers every port, and no smaller range does |
| LocalVolumeController.Controller.Run | ceph/ceph/external-storage/local-volume/provisioner/pkg/controller/controller.go:109-113 | The loop itself, interleaved at every lock and API call with cleaners, informers and the cluster: exclusion in every state, and clean-before-delete if every pass begins with a current cache |
| CleanupProtocol.ExclusionAndConservation | ceph/ceph/external-storage/local-volume/provisioner/pkg/deleter/proctable.go:85-160 | In every interleaving: at most one live cleaner a PV name, its entry Running exactly while it lives or is about to start, cleanups started = running + succeeded + failed, and a cleaner that ends finds its entry |
| CleanupProtocol.ExclusiveStep | ceph/ceph/external-storage/local-volume/provisioner/pkg/deleter/deleter.go:131-243 | Every single step of loop, cleaners and informers keeps exclusion and conservation |
| CleanBeforeDelete.CleanedBeforeDeleted | ceph/ceph/external-storage/local-volume/provisioner/pkg/deleter/deleter.go:131-243 | In every run whose passes begin with a cache that has dropped deleted PVs, each PV object deleted was cleaned after its own release and has policy Delete, and a PV is created only under a name without an entry |
| CleanBeforeDelete.CleanStep | ceph/ceph/external-storage/local-volume/provisioner/pkg/deleter/deleter.go:131-243 | Every single step keeps the invariant behind it |
| StaleCache.CurrentCacheNeeded | ceph/ceph/external-storage/local-volume/provisioner/pkg/deleter/deleter.go:70-106 | The condition is exact: whenever a pass is about to begin, a current cache keeps the invariant, and with a cache that is not current some continuation deletes a PV that was never cleaned |
| StaleCache.StaleCacheArises | ceph/ceph/external-storage/local-volume/provisioner/pkg/deleter/deleter.go:70-106 | And it does arise: two rounds without an informer event between them clean and delete a PV, and the third pass begins with a cache that still shows it |
| StaleCache.UncleanedIsDeleted | ceph/ceph/external-storage/local-volume/provisioner/pkg/deleter/deleter.go:131-213 | So some run from a start deletes a PV that was never cleaned |
| StaleCache.StaleCacheLeaks | ceph/ceph/external-storage/local-volume/provisioner/pkg/deleter/deleter.go:131-213 | From any such state a continuation of the protocol that deletes an uncleaned object is constructed |
| LocalVolumeController.Controller.DeletePVs | ceph/ceph/external-storage/local-volume/provisioner/pkg/deleter/deleter.go:70-106 | One pass over the cached PVs, step by step of the protocol; only unsupported PVs are passed over |
| LocalVolumeController.Controller.DeletePV | ceph/ceph/external-storage/local-volume/provisioner/pkg/deleter/deleter.go:131-213 | One PV: nothing while a cleanup is running, else what HandlePV does; every step is one of the protocol |
| LocalVolumeController.Controller.HandlePV | ceph/ceph/external-storage/local-volume/provisioner/pkg/deleter/deleter.go:157-213 | Without an error, a PV whose cleanup succeeded is deleted and any other gets a new cleanup with its cleaner |
| LocalVolumeController.Controller.RunProcess | ceph/ceph/external-storage/local-volume/provisioner/pkg/deleter/deleter.go:215-225 | The entry is marked before the cleaner is spawned, and nothing is spawned when that fails |
| LocalVolumeController.Controller.AsyncCleanPV | ceph/ceph/external-storage/local-volume/provisioner/pkg/deleter/deleter.go:227-243 | A cleaner's end, with its one change to the table |
| LocalVolumeController.Controller.DiscoverLocalVolumes | ceph/ceph/external-storage/local-volume/provisioner/pkg/discovery/discovery.go:180-284 | Every discovered volume is looked up, step by step of the protocol |
| LocalVolumeController.Controller.ProvisionVolume | ceph/ceph/external-storage/local-volume/provisioner/pkg/discovery/discovery.go:222-283 | A volume without a PV gets one, unless its name is being cleaned or it is ruled out |
| LocalVolumeController.Controller.CreatePV | ceph/ceph/external-storage/local-volume/provisioner/pkg/discovery/discovery.go:295-336 | Creation of one PV, which may fail with or without effect |
| ProcTables.ProcTable.MarkProcessRunning | ceph/ceph/external-storage/local-volume/provisioner/pkg/deleter/proctable.go:85-94 | Marking fails while any entry is there, and then changes nothing |
| ProcTables.ProcTable.MarkProcessStatus | ceph/ceph/external-storage/local-volume/provisioner/pkg/deleter/proctable.go:106-124 | Entry and counter after an outcome; the counter moves even without an entry |
| ProcTables.ProcTable.RemoveProcessEntry | ceph/ceph/external-storage/local-volume/provisioner/pkg/deleter/proctable.go:128-143 | Only finished entries are taken out, with their status |
| ProcTables.ProcTable.GetStats | ceph/ceph/external-storage/local-volume/provisioner/pkg/deleter/proctable.go:146-160 | The loop counts exactly the running entries |
| QuotaProtocol.QuietAgreement | ceph/ceph/external-storage/nfs/pkg/volume/quota.go:170-198 | In every lock-level interleaving of AddProject and RemoveProject on distinct directories no id has two holders, and once nothing is in flight the file holds every live project's block, exactly one each and nothing else iff no removal left a block behind, and reading it back gives exactly the ids taken and those of blocks left behind |
| QuotaProtocol.Invariant | ceph/ceph/external-storage/nfs/pkg/volume/quota.go:170-198 | The invariant behind it after every step, although an id is free before its old block is gone |
| QuotaProtocol.NoneLeftBehind | ceph/ceph/external-storage/nfs/pkg/volume/util.go:96-114 | While removals from the file succeed none is left behind |
| QuotaProtocol.FileStep | ceph/ceph/external-storage/nfs/pkg/volume/util.go:76-114 | Every step keeps the file the text of one block for each directory that has one, and of those left behind |
| QuotaProtocol.HoldersStep | ceph/ceph/external-storage/nfs/pkg/volume/util.go:31-48 | Every step keeps one holder for each id taken and none for any other |
| Quotas.Restart | ceph/ceph/external-storage/nfs/pkg/volume/quota.go:93-111 | A restart reads back exactly the id set, then keeps exactly the projects whose directory exists, and no restored project fails as not added |
| Quotas.XfsQuotaer.RestoreQuotas | ceph/ceph/external-storage/nfs/pkg/volume/quota.go:141-168 | The matches of the file are gone through while blocks are cut from it; exactly the projects without a directory go |
| Quotas.XfsQuotaer.AddProject | ceph/ceph/external-storage/nfs/pkg/volume/quota.go:170-193 | A success takes the first free id and appends its block; a failure leaves ids and file as they were |
| Quotas.XfsQuotaer.RemoveProject | ceph/ceph/external-storage/nfs/pkg/volume/quota.go:195-198 | The project's id is freed and its block's text is cut out, if the file can be written |
| Quotas.XfsQuotaer.SetQuota | ceph/ceph/external-storage/nfs/pkg/volume/quota.go:200-213 | "Not added" is reported exactly for ids that are not taken |
| Quotas.XfsQuotaer.CreateQuota | ceph/ceph/external-storage/nfs/pkg/volume/provision.go:508-525 | A project with its quota or neither: a failure leaves ids and file as they were |
| Quotas.RemovedInOrder | ceph/ceph/external-storage/nfs/pkg/volume/quota.go:195-198 | Cutting one project's text out of the whole file leaves exactly the text of the others, with distinct ids |
| ProjectsFile.FindAllPrinted | ceph/ceph/external-storage/nfs/pkg/volume/quota.go:141-168 | Parsing the printed file gives back the same blocks, ids, directories (which may hold colons) and limits, in order |
| ProjectsFile.ExistingIDsPrinted | ceph/ceph/external-storage/nfs/pkg/volume/quota.go:93-99 | The ids read from the printed file are the projects' ids |
| ProjectsFile.RemoveBlock | ceph/ceph/external-storage/nfs/pkg/volume/util.go:96-114 | Replacing one block's text by nothing removes that project's blocks and no other text |
| ProjectsFile.OtherBlockUntouched | ceph/ceph/external-storage/nfs/pkg/volume/util.go:96-114 | No occurrence of one project's block begins inside another's, whatever follows |
| ProjectsFile.BlockInjective | ceph/ceph/external-storage/nfs/pkg/volume/quota.go:172-175 | Different projects print differently |
| ProjectsFile.MatchPrintedLine | ceph/ceph/external-storage/nfs/pkg/volume/quota.go:141-147 | Both regular expressions read a printed line as intended |
| IdAllocation.GenerateID | ceph/ceph/external-storage/nfs/pkg/volume/util.go:31-42 | Ends whenever fewer than 65536 ids are taken, across the 16-bit wrap, with the first free id in the order 1..65535, 0 |
| IdAllocation.SomeFreeIff | ceph/ceph/external-storage/nfs/pkg/volume/util.go:31-42 | Fewer than 65536 ids are taken exactly when one is free, which is when the search can end |
| Exporters.Exporter.CreateExport | ceph/ceph/external-storage/nfs/pkg/volume/provision.go:489-504 | An export or neither: a failure leaves the id set as it was, and the file too if the removal succeeds and the file is the exporter's own work or mentions no free id |
| Exporters.Serve | ceph/ceph/external-storage/nfs/pkg/volume/provision.go:489-504 | Over any run of exports, failures with their rollbacks and removals, while removals from the file succeed and paths are of one line, the file is what was found and the live exports' blocks, and the ids are those found and theirs |
| Exporters.Restart | ceph/ceph/external-storage/nfs/pkg/volume/util.go:52-74 | A restart reads back exactly the id set if and only if the live exports' paths and subnets mention no free id |
| Exporters.BlocksReadBack | ceph/ceph/external-storage/nfs/pkg/volume/util.go:52-74 | What is read from a file of any text and any blocks: what was there, the blocks' ids, and what their paths and subnets mention |
| Exporters.BlockRemoved | ceph/ceph/external-storage/nfs/pkg/volume/export.go:104-107 | Cutting one export's text out of the file takes away its block and nothing else, wherever it is among the others and whatever they mention |
| ExportRemoval.CutFromMiddle | ceph/ceph/external-storage/nfs/pkg/volume/util.go:96-114 | The same for any text around the block in which no line names its id |
| ExportRemoval.NamesOne | ceph/ceph/external-storage/nfs/pkg/volume/export.go:164-226 | A line names one export's id at most |
| ExportRemoval.RollbackRestores | ceph/ceph/external-storage/nfs/pkg/volume/export.go:90-107 | Appending a block and cutting it out again restores any file in which the id is not mentioned, ganesha or kernel, whatever else the file holds |
| ExportReadBack.AddedIdReadBack | ceph/ceph/external-storage/nfs/pkg/volume/util.go:52-74 | A block added to either exporter's file adds to what a restart reads its id and what path and subnet themselves mention, for all files, paths and subnets |
| ExportReadBack.OnlyIdAddedIff | ceph/ceph/external-storage/nfs/pkg/volume/util.go:52-74 | The id alone is added if and only if path and subnet mention nothing new |
| ExportReadBack.MentionInPath | ceph/ceph/external-storage/nfs/pkg/volume/export.go:164-226 | A path that ends like a mention adds that number too, whatever it is |
| ExportReadBack.CapturedAcross | ceph/ceph/external-storage/nfs/pkg/volume/util.go:64-71 | What the regular expressions capture, they capture piece by piece between newlines, and between blanks and parentheses for the kernel's |
| Exporters.Exporter.AddExportBlock | ceph/ceph/external-storage/nfs/pkg/volume/export.go:90-102 | The first free id and its block, or nothing changed |
| Exporters.Exporter.RemoveExportBlock | ceph/ceph/external-storage/nfs/pkg/volume/export.go:104-107 | The id goes, and all occurrences of the block's text; if it is a live export's, the others stay in order |
| Text.RemoveAllSkips | ceph/ceph/external-storage/nfs/pkg/volume/util.go:96-114 | Removal leaves text alone in which the pattern begins nowhere |
| Text.ParseFormat | ceph/ceph/external-storage/nfs/pkg/volume/quota.go:170-193 | Decimal printing and parsing of ids are inverse |
| AttachProtocol.NoDeviceShared | ceph/ceph/external-storage/snapshot/pkg/cloudprovider/providers/aws/aws.go:1271-1367 | In every interleaving of AttachDisk and DetachDisk, each node's attachments in progress stay injective; they gain only a device that was neither among them nor reported, and lose one only through endAttaching for that volume |
| AttachProtocol.CallsKeepTheirDevices | ceph/ceph/external-storage/snapshot/pkg/cloudprovider/providers/aws/aws.go:1530-1677 | With one call a volume at a time, calls in flight hold different new devices, each entered for its own volume until its call ends |
| AttachProtocol.SecondCallEndsEntry | ceph/ceph/external-storage/snapshot/pkg/cloudprovider/providers/aws/aws.go:1271-1367 | A run with a second call for the volume ends the entry of the first, which is still in flight: one call a volume is needed |
| AttachProtocol.EndFindsEntry | ceph/ceph/external-storage/snapshot/pkg/cloudprovider/providers/aws/aws.go:1348-1367 | With one call a volume at a time, endAttaching never misses the entry of a call that was assigned a new device, and takes it away |
| AttachCalls.Attacher.AttachDisk | ceph/ceph/external-storage/snapshot/pkg/cloudprovider/providers/aws/aws.go:1530-1614 | The steps of one call among any number of others: an entry it made is taken back unless waiting fails, and a device is returned only after a wait that succeeded; read-only volumes are refused |
| AttachCalls.Attacher.DetachDisk | ceph/ceph/external-storage/snapshot/pkg/cloudprovider/providers/aws/aws.go:1617-1677 | The same for detaching: requests are made even for volumes found on no device, and only a detachment that was waited for ends an entry |
| AttachCalls.Attacher.NothingShared | ceph/ceph/external-storage/snapshot/pkg/cloudprovider/providers/aws/aws.go:1271-1367 | Whatever calls have run, no two devices of a node are entered for one volume |
| VolumeAttach.AssignedIsFree | ceph/ceph/external-storage/snapshot/pkg/cloudprovider/providers/aws/aws.go:1299-1341 | A newly assigned device is in neither map, and its volume was entered nowhere |
| VolumeAttach.Cloud.GetMountDevice | ceph/ceph/external-storage/snapshot/pkg/cloudprovider/providers/aws/aws.go:1271-1344 | Under one lock: a device the volume has, none, a new one entered for it, or an error if all are taken; other nodes are untouched |
| VolumeAttach.Cloud.EndAttaching | ceph/ceph/external-storage/snapshot/pkg/cloudprovider/providers/aws/aws.go:1348-1367 | Removes the entry exactly if it is this volume's |
| VolumeAttach.ReadDevices | ceph/ceph/external-storage/snapshot/pkg/cloudprovider/providers/aws/aws.go:1277-1292 | The reported devices by bare name, later entries overriding |
| DeviceAllocators.DeviceAllocator.GetNext | ceph/ceph/external-storage/snapshot/pkg/cloudprovider/providers/aws/device_allocator.go:67-80 | Ends with the first free device in cyclic order after the last one, and fails exactly if all 52 are taken |
| DeviceAllocators.DeviceAllocator.constructor | ceph/ceph/external-storage/snapshot/pkg/cloudprovider/providers/aws/device_allocator.go:53-65 | The ring is ba..bz, ca..cz |
| DeviceAllocators.NoEarlyReuse | ceph/ceph/external-storage/snapshot/pkg/cloudprovider/providers/aws/device_allocator.go:67-80 | Over a run, between two grants of one device every other device was granted or reported in use |
| DeviceAllocators.PassedVisited | ceph/ceph/external-storage/snapshot/pkg/cloudprovider/providers/aws/device_allocator.go:67-80 | Until the ring is back at a device, everything it has passed was granted or in use |
| SecurityGroups.SecurityGroup.SetSecurityGroupIngress | ceph/ceph/external-storage/snapshot/pkg/cloudprovider/providers/aws/aws.go:2156-2221 | A success leaves exactly the wanted rules and reports a change iff there was one; not even a failure removes a wanted rule or adds an unwanted one |
| SecurityGroups.Ungroup | ceph/ceph/external-storage/snapshot/pkg/cloudprovider/providers/aws/sets_ippermissions.go:39-83 | The three loops compute the intended split by range, user group and prefix list if and only if no permission has several user groups |
| SecurityGroups.SplitUpNormalForm | ceph/ceph/external-storage/snapshot/pkg/cloudprovider/providers/aws/sets_ippermissions.go:39-83 | For range permissions splitting keeps the rules and is a normal form: equal splits iff equal rule sets |
| SecurityGroups.DifferenceRules | ceph/ceph/external-storage/snapshot/pkg/cloudprovider/providers/aws/sets_ippermissions.go:126-135 | The difference of two splits has exactly the rules that are missing, and is empty iff none is |
| SecurityGroups.Differences | ceph/ceph/external-storage/snapshot/pkg/cloudprovider/providers/aws/aws.go:2184-2198 | What is to be added and removed, as rules, and that empty sets mean no difference |
| ElbListeners.LoadBalancer.SyncListeners | ceph/ceph/external-storage/snapshot/pkg/cloudprovider/providers/aws/aws_loadbalancer.go:148-213 | Deletes by port and creates leave exactly the wanted listeners, for a wanted list without repeats if and only if no listener that stays shares its port with one that goes; "dirty" then means that they differed |
| ElbListeners.Compare | ceph/ceph/external-storage/snapshot/pkg/cloudprovider/providers/aws/aws_loadbalancer.go:152-191 | The removals are the ports of the unwanted listeners; the additions are all the missing ones and, without repeats, no other |
| ElbListeners.SyncedListeners | ceph/ceph/external-storage/snapshot/pkg/cloudprovider/providers/aws/aws_loadbalancer.go:193-213 | Deleting those ports and adding the missing listeners gives the wanted ones if and only if no wanted listener is lost to a deletion by port |
| ElbListeners.DistinctPortsTell | ceph/ceph/external-storage/snapshot/pkg/cloudprovider/providers/aws/aws_loadbalancer.go:193-213 | Nothing is lost where the load balancer's listeners have distinct ports, whatever is wanted |
| ElbListeners.SyncProxyProtocol | ceph/ceph/external-storage/snapshot/pkg/cloudprovider/providers/aws/aws_loadbalancer.go:215-282 | Afterwards every wanted listener's backend port has the wanted proxy setting and every other known backend has none |
| ElbListeners.RemoveStalePolicies | ceph/ceph/external-storage/snapshot/pkg/cloudprovider/providers/aws/aws_loadbalancer.go:269-281 | Exactly the backends that no listener uses lose their policy |
| CephCaps.CapabilityRuns | ceph/ceph/external-storage/ceph/cephfs/cephfs_provisioner/cephfs_provisioner.py:135-310 | Over any sequence of authorize and deauthorize calls for one user, in whatever order sets are joined, the entity exists exactly while a share is authorized, with exactly those shares' osd tokens, and their mds tokens and "allow r" |
| CephCaps.Entity.Authorize | ceph/ceph/external-storage/ceph/cephfs/cephfs_provisioner/cephfs_provisioner.py:135-205 | The entity's token sets after a call, for an entity that exists or not |
| CephCaps.Entity.Deauthorize | ceph/ceph/external-storage/ceph/cephfs/cephfs_provisioner/cephfs_provisioner.py:267-310 | The token sets after a call, and when the entity goes: once no osd token but an empty one is left |
| CephCaps.CapUpdate | ceph/ceph/external-storage/ceph/cephfs/cephfs_provisioner/cephfs_provisioner.py:176-186 | The wanted tokens once, the conflicting one not at all, the others kept |
| CephCaps.CapRemove | ceph/ceph/external-storage/ceph/cephfs/cephfs_provisioner/cephfs_provisioner.py:290-292 | Exactly the other tokens stay; the text is empty iff none of them holds anything |
| CephCaps.JoinSet | ceph/ceph/external-storage/ceph/cephfs/cephfs_provisioner/cephfs_provisioner.py:176-186 | Joined in any order, a set of pieces splits into the union of their tokens |
| CephCaps.ExactIffSeparate | ceph/ceph/external-storage/ceph/cephfs/cephfs_provisioner/cephfs_provisioner.py:135-310 | The condition is exact: every run over a set of shares leaves the user exactly what it holds if and only if no two of them have a capability in common |
| CephCaps.CommonCapIsLost | ceph/ceph/external-storage/ceph/cephfs/cephfs_provisioner/cephfs_provisioner.py:290-310 | Otherwise deauthorizing the one takes the common capability from the other |
| CephCaps.SharedPoolLosesAccess | ceph/ceph/external-storage/ceph/cephfs/cephfs_provisioner/cephfs_provisioner.py:298-300 | Without namespaces that is so for any two shares of one pool: removing one removes the other's access |
| CephCaps.Serve | ceph/ceph/external-storage/ceph/cephfs/cephfs_provisioner/cephfs_provisioner.py:135-310 | The run theorem for the entity itself, whatever order each join takes |
| CephCaps.DistinctSharesSeparate | ceph/ceph/external-storage/ceph/cephfs/cephfs_provisioner/cephfs_provisioner.py:126-141 | Distinct paths and set, distinct pool namespaces keep all capabilities apart |
| SnapshotProtocol.EffectsNeverOverlap | ceph/ceph/external-storage/snapshot/pkg/controller/snapshotter/snapshotter.go:411-630 | In every interleaving of handlers, reconciler and operations, however stale the reconciler's lists and whatever fails: a deletion that is past its look-up works on the snapshot that the actual state has, and no creation works on that name meanwhile; and where nothing works, was found or failed half-way, the storage holds exactly what is recorded, each in the actual state of its snapshot |
| SnapshotProtocol.SeparateStep | ceph/ceph/external-storage/snapshot/pkg/controller/snapshotter/snapshotter.go:595-678 | Every step keeps that apart: what a list or a look-up names is what the actual state has, or its record is gone for good |
| SnapshotProtocol.AccountedStep | ceph/ceph/external-storage/snapshot/pkg/controller/snapshotter/snapshotter.go:486-630 | Every step accounts for what is on the storage and what is recorded |
| SnapshotFailures.StuckStays | ceph/ceph/external-storage/snapshot/pkg/controller/snapshotter/snapshotter.go:603-629 | A snapshot of the actual state whose record is gone stays there for ever: its deletion fails at the look-up, where the comment (lines 597-598) has it finish |
| SnapshotFailures.GetsStuck | ceph/ceph/external-storage/snapshot/pkg/controller/snapshotter/snapshotter.go:603-629 | It comes to that exactly when a deletion fails after it has deleted the record, when a creation adds a snapshot whose record is gone, or when another snapshot's deletion deletes its record |
| SnapshotFailures.DeletionGetsStuck | ceph/ceph/external-storage/snapshot/pkg/controller/snapshotter/snapshotter.go:616-626 | From every state at rest any snapshot that is there can get stuck, unwanted |
| SnapshotFailures.StuckReached | ceph/ceph/external-storage/snapshot/pkg/controller/snapshotter/snapshotter.go:616-626 | A run from nothing comes to such a state |
| SnapshotFailures.HopelessNeverMade | ceph/ceph/external-storage/snapshot/pkg/controller/snapshotter/snapshotter.go:411-455 | A snapshot wanted with an error, or as pending with its record gone, is never created, whatever else happens, unless it is wanted anew |
| SnapshotFailures.FailedCreationOrphans | ceph/ceph/external-storage/snapshot/pkg/controller/snapshotter/snapshotter.go:506-514 | Every creation that fails between taking a snapshot and recording it leaves an orphan on the storage |
| SnapshotFailures.OrphanStays | ceph/ceph/external-storage/snapshot/pkg/controller/reconciler/reconciler.go:107-130 | An orphan stays on the storage for ever, in every run; one that is recorded, as long as it is not wanted again |
| SnapshotFailures.RetryTakesAnother | ceph/ceph/external-storage/snapshot/pkg/controller/snapshotter/snapshotter.go:486-528 | A creation that is retried can take another snapshot and leave the first one an orphan: a run from nothing |
| SnapshotConvergence.RoundsTerminate | ceph/ceph/external-storage/snapshot/pkg/controller/reconciler/reconciler.go:107-130 | With a fixed desired state and operations that fail only where they cannot succeed or are not wanted any more, there is a number of working steps that no interleaving exceeds, stale lists included; from every state in which what is desired can be made and what is not can be deleted |
| SnapshotConvergence.WorkIsBounded | ceph/ceph/external-storage/snapshot/pkg/controller/reconciler/reconciler.go:107-130 | The steps taken so far and the rank of the state they lead to never exceed the rank of the start |
| SnapshotConvergence.QuietStep | ceph/ceph/external-storage/snapshot/pkg/controller/reconciler/reconciler.go:107-130 | Every such step is paid for and keeps the state one of these |
| SnapshotConvergence.WorkEnds | ceph/ceph/external-storage/snapshot/pkg/controller/reconciler/reconciler.go:107-130 | Between two rounds, no work comes of either list exactly when nothing runs and the actual state is the desired one |
| SnapshotConvergence.Converged | ceph/ceph/external-storage/snapshot/pkg/controller/reconciler/reconciler.go:107-130 | At that end, in any run from an empty storage in which nothing failed half-way, the storage holds exactly what is recorded, each for a snapshot that is desired |
| SnapshotProspects.HopeFromTheStart | ceph/ceph/external-storage/snapshot/pkg/controller/reconciler/reconciler.go:107-130 | Every state between two rounds is one from which reconciling comes to its end, in every run from the start in which nothing failed half-way and snapshots were wanted as new or with a record of their own that no deletion was after |
| SnapshotReconciler.Controller.Reconcile | ceph/ceph/external-storage/snapshot/pkg/controller/reconciler/reconciler.go:107-130 | One round; if nothing else moved, every difference has an operation that runs or backs off |
| SnapshotReconciler.Controller.Settle | ceph/ceph/external-storage/snapshot/pkg/controller/reconciler/reconciler.go:107-130 | While no snapshot is wanted or given up and operations fail only where they cannot succeed, as a stale deletion does, or are not wanted any more, repeated rounds come to an end with actual = desired and nothing running, whatever failed before |
| SnapshotReconciler.Controller.MaySettle | ceph/ceph/external-storage/snapshot/pkg/controller/reconciler/reconciler.go:107-130 | What that asks of the state holds in every sincere run in which nothing failed half-way |
| SnapshotReconciler.Controller.Run | ceph/ceph/external-storage/snapshot/pkg/controller/reconciler/reconciler.go:107-130 | Any number of rounds, interleaved with handlers and operations, refine the protocol and inherit its safety |
| SnapshotReconciler.Controller.CreateVolumeSnapshot | ceph/ceph/external-storage/snapshot/pkg/controller/snapshotter/snapshotter.go:642-659 | Launches unless an operation of that name runs or backs off |
| SnapshotReconciler.Controller.DeleteVolumeSnapshot | ceph/ceph/external-storage/snapshot/pkg/controller/snapshotter/snapshotter.go:661-678 | The same for deletions |
| SnapshotReconciler.Controller.OnSnapshotAdd | ceph/ceph/external-storage/snapshot/pkg/controller/snapshot-controller/snapshot-controller.go:180-192 | An added snapshot is wanted; nothing is launched by the handler |
| SnapshotReconciler.Controller.OnSnapshotDelete | ceph/ceph/external-storage/snapshot/pkg/controller/snapshot-controller/snapshot-controller.go:204-225 | A deleted one is not wanted any more |
| SnapshotConditions.HistoryRuns | ceph/ceph/external-storage/snapshot/pkg/controller/snapshotter/snapshotter.go:747-854 | Over any run of updates, whatever fails: only the last condition of either history is rewritten and never its type, neighbours never share a type, times move only with the status, a creation timestamp stays |
| SnapshotConditions.DataFollowsSnapshot | ceph/ceph/external-storage/snapshot/pkg/controller/snapshotter/snapshotter.go:747-854 | While no access fails, the VolumeSnapshotData's history is a suffix of the VolumeSnapshot's in type and status |
| SnapshotConditions.SuffixWithoutPropagation | ceph/ceph/external-storage/snapshot/pkg/controller/snapshotter/snapshotter.go:843-849 | When a change reaches the VolumeSnapshot alone, the suffix is kept exactly if the report had the last condition's type and status |
| SnapshotConditions.FirstChangeDecides | ceph/ceph/external-storage/snapshot/pkg/controller/snapshotter/snapshotter.go:816-851 | After a change that was written to the VolumeSnapshot alone, over any number of updates in which no access fails: the histories stay apart as long as the same is reported, and the first report of anything else decides once and for all, by the condition MakesUp, whether they agree again |
| SnapshotConditions.ChangeDecides | ceph/ceph/external-storage/snapshot/pkg/controller/snapshotter/snapshotter.go:816-851 | That report makes up for the loss exactly if it is of the lost condition's type, or takes away the VolumeSnapshotData's last condition where all before that is in order |
| SnapshotConditions.RepeatSkips | ceph/ceph/external-storage/snapshot/pkg/controller/snapshotter/snapshotter.go:833-853 | Repeating the lost report succeeds and carries nothing over |
| SnapshotConditions.Started | ceph/ceph/external-storage/snapshot/pkg/controller/snapshotter/snapshotter.go:530-585 | How a snapshot starts out meets the conditions of both run theorems |
| SnapshotConditions.ApiServer.UpdateVolumeSnapshotStatus | ceph/ceph/external-storage/snapshot/pkg/controller/snapshotter/snapshotter.go:803-854 | Success means both objects are updated; failure leaves none, the first or both updated |
| SnapshotConditions.ApiServer.PropagateVolumeSnapshotCondition | ceph/ceph/external-storage/snapshot/pkg/controller/snapshotter/snapshotter.go:747-800 | Success means the condition has been carried over, without its reason; failure may have done it too |
| SnapshotConditions.ApiServer.WaitForSnapshot | ceph/ceph/external-storage/snapshot/pkg/controller/snapshotter/snapshotter.go:201-253 | Stops at the first answer that is ready or an error, reports every answer before; a ready snapshot counts as created if and only if its last update succeeded, and otherwise breaks the operation down |
| GlusterAnnotations.ServerRoundTrip | ceph/ceph/external-storage/gluster/file/cmd/glusterfile-provisioner/glusterfile-provisioner.go:189-189 | Parsing the printed server annotation gives back url, user, secret and namespace iff none holds a comma and none but the url a colon |
| GlusterAnnotations.BlockArgsRoundTrip | ceph/ceph/external-storage/gluster/block/cmd/glusterblock-provisioner/glusterblock-provisioner.go:249-259 | For every storage class whose block arguments are accepted, printed in any order, reading gives them back iff no value holds a colon |
| GlusterAnnotations.ArgsRoundTrip | ceph/ceph/external-storage/gluster/block/cmd/glusterblock-provisioner/glusterblock-provisioner.go:537-555 | The same for any arguments under plain keys, in both modes |
| GlusterAnnotations.ParseServer | ceph/ceph/external-storage/gluster/block/cmd/glusterblock-provisioner/glusterblock-provisioner.go:537-555 | The parsing loop, including where indexing a piece breaks down |
| GlusterAnnotations.PrintBlockModeArgs | ceph/ceph/external-storage/gluster/block/cmd/glusterblock-provisioner/glusterblock-provisioner.go:249-255 | The printing loop, in whatever order the map yields its keys |
| GlusterAnnotations.ParseBlockModeArgs | ceph/ceph/external-storage/gluster/block/cmd/glusterblock-provisioner/glusterblock-provisioner.go:796-821 | The storage class's arguments; the first wrong one decides |
| GlusterAnnotations.WhatIsReadIsClean | ceph/ceph/external-storage/gluster/file/cmd/glusterfile-provisioner/glusterfile-provisioner.go:579-593 | Whatever annotation is read, no value has a comma and none but a url a colon |
| GlusterAnnotations.GetRESTCredentials | ceph/ceph/external-storage/gluster/file/cmd/glusterfile-provisioner/glusterfile-provisioner.go:573-604 | Reading a printed server gives its arguments and the secret's value, looked up only when secret and namespace are set |

## Left out

- GCE: effects of a call that timed out happen at once or never, not later.
- GCE: which address is used when a particular one is requested. The code tests the wrong error
  variable there, and an orphaned reservation can then differ from the rule.
- GCE: EnsureLoadBalancerDeleted, which deletes the firewall in parallel with the rule; UpdateLoadBalancer.
- GCE: host tags of the firewall, health check intervals and thresholds; the firewall's description is
  modelled as the service and address that it names.
- Local volumes: cleaning by jobs, mount options and capacities, hash
  collisions of generated names.
- Local volumes: a restart of the provisioner while cleaning scripts run.
- LocalVolumeController.Controller.AsyncCleanPV: the cleaning itself is one step with an arbitrary outcome.
- NFS: writes of a file that stop half-way; directories with newlines and limits that are not digits.
- IdAllocation.GenerateID: requires a free id; with all 65536 taken the code never returns.
- Quotas.Restart: requires that no removal from the file has failed; what one leaves behind is
  stated by `QuotaProtocol.QuietAgreement`.
- Exporters.Exporter.CreateExport: promises nothing of the file for paths or subnets of several lines.
- Exporters.Serve: one call after the other; critical sections of several calls interleave in `QuotaProtocol` alone.
- NFS: rollback of a whole volume, which leaves the export behind when the quota fails.
- AttachCalls.Attacher.AttachDisk: the disk's own look-up, and why a finished attachment is rejected, are
  arbitrary outcomes; so are the polls of waitForAttachmentStatus.
- AWS: several controllers writing one security group or load balancer at once.
- VolumeAttach.Cloud.GetMountDevice: the look-up of the instance type before the lock, which may fail, is left out.
- ElbListeners.LoadBalancer.SyncListeners: an unset field and an empty one count as equal, as in the
  code's comparison; the order of listeners is not kept.
- AttachProtocol.CallsKeepTheirDevices: assumes one call a volume and node at a time, without which
  `SecondCallEndsEntry` shows it to fail; `NoDeviceShared` does not.
- Ceph: errors other than a missing entity, which the code does not tell apart, and the entity's key.
- Snapshots: the look-up of an earlier snapshot by the cloud's tags, in updateSnapshotIfExists, counts as
  a failure where it finds one: the code goes on only for a label that the controller never writes.
- Snapshots: promotion to a volume.
- SnapshotProtocol.EffectsNeverOverlap: the claim of a snapshot does not change, so that its operations
  keep their names; names of VolumeSnapshotData are never given out twice; a snapshot on the storage and
  its VolumeSnapshotData go by one id, and the data of a VolumeSnapshot that was bound are those of its id.
- SnapshotReconciler.Controller.Settle: some running operation goes on between two rounds, and no
  operation backs off any more.
- SnapshotReconciler.Controller.Launch: backing off after a failure lasts for an arbitrary time.
- Snapshots: the desired and the actual state are two objects of one class, and adding nil to the desired one is left out.
- Gluster: volume creation and heketi's answers.
- OpenStack clients, retry handling with floating point, metrics, configuration and generated code.
