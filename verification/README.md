# A verified model of the cluster service's core

Dafny models of the parts of the service whose correctness is not visible in any one function,
with proofs over every input, every interleaving and every reachable state. Check everything with

    dafny verify dfyconfig.toml

| files | what they model |
|---|---|
| `Connection.dfy`, `Tunnel.dfy`, `TunnelInvariant.dfy`, `TunnelTheorems.dfy`, `TunnelSilence.dfy`, `TunnelClosure.dfy`, `TunnelWriter.dfy`, `TunnelFaults.dfy` | the multiplexing tunnel (`pkg/remotedialer`) as a step system: two sessions over a link that is first-in first-out in each direction, every mutex-protected block, channel operation and link write one step; a run is any finite sequence of steps |
| `Session.dfy` | the same sessions and connections as objects updated in place, each method proved against a function, and uninterrupted calls of `serveMessage`, `serverConnect` and `Close` proved to be runs of the step system |
| `Codec.dfy` | the message format: zigzag base-128 varints ("Base 128 Varints" and "Signed Integers" of the Protocol Buffers encoding specification), the 24-byte header, constructors and decoder |
| `Compare.dfy`, `Versions.dfy`, `Mirror.dfy` | the mirror engine: sort-merge diff, resource-version check, one sync pass over a table |
| `ManagerTree.dfy` | the tree of resource managers: synced parents first, purged children first |
| `Federation.dfy`, `FederationStore.dfy`, `Reconcile.dfy` | joint rows between federated objects and clusters: attach, detach, purge, guarded deletes, and the binding of a joint row to a cluster resource |
| `Registry.dfy` | the registry of live cluster clients and the health check |
| `Labels.dfy`, `DeepMerge.dfy`, `PodResources.dfy`, `Usage.dfy` | label equality ignoring the hash, recursive merge, effective pod resources, usage totals |
| `Prelude.dfy` | shared value types |

The database is a map of rows; SQL queries are set or map comprehensions over it. Failures of the
database, the network, a remote cluster or a background job are parameters (sets of stuck rows, outcomes,
labels), so every theorem covers all of them. A step is what the code does under one lock, or one database
operation where it holds none: an update checks a copy fetched earlier, an attach checks and inserts
separately, a purge looks a row up and deletes it separately, a reconcile looks up and writes separately.

Results that the code does not meet as it stands, each with the exact condition under which it does and an
input on which it fails:

* the second of two equal sync passes is sure to delete nothing exactly when no spared (`_fail`,
  `_failed`) row carries the id of a remote object (`Mirror.IdleIffNoClash`; it fails in `Mirror.ClashRun`).
  Two rows of a cluster come to share an external id because both the name lookup before an insert
  (pkg/models/clusterresource.go:244-252) and the class lock around it go by the caller's domain or project:
  two callers of different ones do not see each other's row;
* the stored version of a row never goes back exactly when no update is overtaken, that is, when no update
  accepted against its copy writes a version below the stored one (`Versions.NeverBackExact`; it fails in
  `Versions.OvertakenRun`). Whatever objects arrive, an update is safe exactly when its copy is not behind the
  stored row (`Versions.NeverBehindExact`). Deliveries that do not overlap leave the same row in every order exactly when
  the greatest version belongs to one object (`Versions.ConfluentExact`);
* the resource-version check tells newer from older exactly unless both versions are at or beyond
  2^31 - 1 (`Versions.CheckIsExact`; a row goes back in `Versions.LargeVersionsGoBack`);
* joint rows never lack their object or cluster exactly when each attach, at the moment of its insert,
  still finds both, and no purge of the cluster has already looked up the object's row
  (`Federation.RunSound`; it fails in `Federation.DanglingRun` and `Federation.ReplacedRun`);
* a joint row bound to a resource is sure to stay bound to it, over every run in which neither is deleted,
  exactly when no attempt under way on the row found nothing, or another resource than the one its copy of
  the row names (`Reconcile.BoundExact`; it fails in `Reconcile.OvertakenRun`). Only an outside deletion or
  rename can bring that danger about: from tables in which no two resources share a name, and absent those,
  a row once bound is bound for good, attempts overlapping as they like (`Reconcile.BoundForGood`);
* a resource created but not bound is adopted by the next attempt exactly when the joint row had not been
  bound before; otherwise the name is taken, every attempt fails, and the row is stuck until somebody
  deletes that resource (`Reconcile.AdoptsOrSticks`, `Reconcile.StuckStays`, `Reconcile.DeletionFrees`;
  a stuck row in `Reconcile.StuckRun`);
* Data and Connect headers fit the 24-byte buffer for every id and deadline exactly when the
  (non-negative) connection id is below 2^41 (`Codec.DataHeaderFits`);
* the label comparison is right exactly outside two families: only the second map carries the hash, in
  place of a label, or the larger map has labels with empty values that the smaller one lacks
  (`Labels.ScanExact`; it fails in `Labels.HashHides` and `Labels.EmptyHides`);
* deep merge is associative exactly when, wherever the middle value is a leaf between two maps, the left
  map is absorbed by the right one (`DeepMerge.AssociativeExact`; it fails in `DeepMerge.NotAssociative`).

## Model

| member | source | states |
|---|---|---|
| `Connections.ShutKeeps` | pkg/remotedialer/connection.go:41-55 | closing keeps the byte account, the queue and what was read, and leaves the queue closed exactly once; only the first error is recorded, "closed pipe" if there is none |
| `Connections.OfferKeeps` | pkg/remotedialer/connection.go:161-180 | an accepted chunk is appended to the accepted bytes whole; a refused one leaves the connection unchanged |
| `Connections.OfferExact` | pkg/remotedialer/connection.go:161-180 | a chunk is refused if and only if the connection is closed, with its own error, or 1024 chunks wait, as a backed-up reader; otherwise it joins the end of the queue |
| `Connections.ReceiveKeeps` | pkg/remotedialer/connection.go:66-96 | Read returns the next bytes without gap; it fails or blocks only when every accepted byte has been read, and fails with the sticky error |
| `Connections.FailureStays` | pkg/remotedialer/connection.go:72-96 | after a failed Read every later Read fails the same way and no byte was missed |
| `Connections.ReceiveExact` | pkg/remotedialer/connection.go:72-96 | Read returns as many bytes as the buffer and the front chunk allow, at least one if that is not empty; it waits if and only if nothing is there and the connection is open |
| `Connections.ReadsDeliver` | pkg/remotedialer/connection.go:72-96 | repeated reads of any size deliver every accepted byte, in at most one read per byte and chunk |
| `TunnelInvariant.NextKeeps` | pkg/remotedialer/session.go:109-206 | every step in every state keeps the tunnel invariant: byte accounts of both directions, frame order on the link, closed queue if and only if error |
| `TunnelInvariant.AfterKeeps` | pkg/remotedialer/session.go:88-206 | the invariant holds after every run |
| `TunnelInvariant.FrontKnown` | pkg/remotedialer/session.go:125-135 | a Data frame at the front of the link names a connection its receiver has made |
| `TunnelInvariant.ConnectFromServer` | pkg/remotedialer/session.go:117-123 | only the client side ever meets a Connect frame |
| `TunnelTheorems.EndToEndPrefix` | pkg/remotedialer/session.go:109-188 | in every interleaving the bytes read are a prefix of the bytes queued, and those of the bytes the peer wrote on that connection |
| `TunnelWriter.AfterOrder` | pkg/remotedialer/connection.go:98-111 | with one writer at a time, every run keeps: the bytes on the link are a prefix of the bytes of its Write calls, and all but the call under way while the link is up |
| `TunnelWriter.ReadsWhatWasWritten` | pkg/remotedialer/connection.go:98-111 | so the bytes the peer has read are a prefix of the concatenated Write arguments, in the order of the calls |
| `TunnelTheorems.NothingLostWhileOpen` | pkg/remotedialer/session.go:137-159 | while the entry stays in the table, bytes read, buffered, queued, being copied and in flight are together exactly the bytes written, unless a chunk of it has just been refused |
| `TunnelTheorems.NextLater` | pkg/remotedialer/session.go:149-206 | no step replaces a connection, changes a set error or takes bytes back |
| `TunnelTheorems.AfterLater` | pkg/remotedialer/session.go:149-206 | the same over every run |
| `TunnelTheorems.QueueClosedOnce` | pkg/remotedialer/connection.go:41-55 | in every run a queue is closed at most once, exactly when the error is set, and never sent to afterwards |
| `TunnelTheorems.ErrorIsSticky` | pkg/remotedialer/connection.go:41-55 | once set the error never changes and the queue takes no byte, however the run goes on |
| `TunnelTheorems.ReadErrorIsFinal` | pkg/remotedialer/connection.go:66-96 | when Read first fails, the bytes read are exactly those accepted, a prefix of those written; every later Read repeats the error |
| `TunnelTheorems.BornInTable` | pkg/remotedialer/session.go:161-179 | the step that makes a connection also enters it into the table |
| `TunnelTheorems.EverInTable` | pkg/remotedialer/session.go:161-179 | a connection that exists was in the table at some earlier point of the run |
| `TunnelTheorems.NotFoundOnlyAfterClose` | pkg/remotedialer/session.go:125-135 | a Data frame meets "connection not found" only if the receiver had the connection in its table earlier and took it out, never because it overtook its Connect |
| `TunnelFaults.ChunkRefused` | pkg/remotedialer/session.go:138-141 | in every run the serve loop gives up on a Data frame in a chunk if and only if the connection has been closed or 1024 chunks wait in its queue |
| `TunnelFaults.ChunkEnds` | pkg/remotedialer/session.go:138-141 | the copy ends if and only if the frame does |
| `TunnelFaults.ReaderFails` | pkg/remotedialer/session.go:138-141 | a failing frame reader makes the loop give up with that error and keeps what was copied |
| `TunnelFaults.ReadToTheEnd` | pkg/remotedialer/connection.go:72-96 | in every state of every run, enough reads of any size deliver every byte the connection has accepted |
| `TunnelFaults.ClosedBy` | pkg/remotedialer/connection.go:41-55 | a step sets the error of a connection if and only if it is a goroutine of that side that closes it with this very error |
| `TunnelFaults.DueIsDone` | pkg/remotedialer/connection.go:36-39 | however everybody else goes on in between, a goroutine that closes a connection sends the peer this very error while the link is up, and it becomes the sticky error unless another close came first |
| `TunnelFaults.FailingDrops` | pkg/remotedialer/session.go:137-159 | a loop that has given up drops the entry with the very error it gave up for, whatever happens before |
| `TunnelFaults.ErrorFrameCloses` | pkg/remotedialer/session.go:142-143 | so an Error frame closes an entry that is still open with the very error of the frame |
| `TunnelFaults.DialFailureDue` | pkg/remotedialer/client_dialer.go:24-27 | a failed dial announces its own error and then closes what is left |
| `TunnelFaults.DialPipes` | pkg/remotedialer/client_dialer.go:28-31 | a dial that succeeds goes over to piping and announces nothing |
| `TunnelFaults.PipeFirst` | pkg/remotedialer/client_dialer.go:37-50 | the copy that ends first closes the connection with its error and tells nobody |
| `TunnelFaults.PipeEnds` | pkg/remotedialer/client_dialer.go:52-58 | once both copies have ended, the peer is told the error of the one from the network, whatever happens in between |
| `TunnelFaults.DelDue` | pkg/remotedialer/session.go:149-159 | closeConnection announces its error if and only if the entry is still in the table |
| `TunnelFaults.CloseDue` | pkg/remotedialer/connection.go:61-64 | Close announces the end of the stream |
| `TunnelFaults.CloseSessionDue` | pkg/remotedialer/session.go:195-206 | closing the session announces a disconnect for each entry |
| `TunnelFaults.ConnectFailureDue` | pkg/remotedialer/session.go:181-185 | a connection whose Connect cannot be sent is taken out and closed |
| `TunnelFaults.NotFoundAnswered` | pkg/remotedialer/session.go:129-135 | Data for an unknown connection is answered with "not found" while the link is up |
| `TunnelFaults.WriteSends` | pkg/remotedialer/connection.go:98-111 | a Write puts exactly its bytes on the link while that is up; on a closed connection it does nothing |
| `TunnelFaults.LinkFails` | pkg/remotedialer/session.go:190-193 | a failed link stays failed, and over every run only frames that were on it are still served |
| `TunnelFaults.RefusedConnect` | pkg/remotedialer/session.go:117-120 | the loop stops if and only if it meets a Connect that is not allowed, and over every run serves nothing after that |
| `TunnelSilence.NextWeight` | pkg/remotedialer/session.go:129-159 | every step other than a dial, a write or a read changes nothing or lowers the weight of frames, entries and goroutines |
| `TunnelSilence.StepWeight` | pkg/remotedialer/client_dialer.go:10-58 | every operation of a dial, pipe or close goroutine lowers the weight, the Error frames it sends included |
| `TunnelSilence.EchoDiesOut` | pkg/remotedialer/session.go:129-159 | without new dials and writes, every run takes at most as many steps as the weight of its first state |
| `TunnelSilence.SomeStep` | pkg/remotedialer/session.go:88-107 | in every reachable state that is not silent, some step of the tunnel's own is possible |
| `TunnelSilence.FallsSilent` | pkg/remotedialer/session.go:129-159 | from every reachable state the tunnel's own steps reach silence within the weight |
| `TunnelClosure.StepHas` | pkg/remotedialer/client_dialer.go:10-58 | a goroutine's step loses no duty to tell the peer, leave the table or close the queue except by doing it |
| `TunnelClosure.ServerTableGrows` | pkg/remotedialer/session.go:172-179 | only a new dial enters the server's table |
| `TunnelClosure.NextOwed` | pkg/remotedialer/session.go:109-206 | every step keeps: an open queue is in the table or owed its close; a client entry is owed its removal; while the link is up word is on its way for every server entry |
| `TunnelClosure.AfterOwed` | pkg/remotedialer/session.go:88-206 | so does every run |
| `TunnelClosure.SilentMeansClosed` | pkg/remotedialer/client_dialer.go:10-58 | in every run, silence with the link up and both loops alive means both tables are empty and every queue ever made was closed: nothing leaks |
| `Sessions.Connection.constructor` | pkg/remotedialer/connection.go:23-34 | a new connection is empty, open and without error |
| `Sessions.Connection.DoTunnelClose` | pkg/remotedialer/connection.go:41-55 | in place, equal to `Shut`; the first error stays, "closed pipe" if there is none; the channel is closed only while open |
| `Sessions.Connection.ChanWrite` | pkg/remotedialer/connection.go:161-180 | in place, equal to `Offer`; refused if and only if the connection is closed or 1024 chunks wait; the channel is sent to only while open, and all or nothing of the chunk is accepted |
| `Sessions.Connection.CopyData` | pkg/remotedialer/connection.go:66-70 | the front of readBuf goes to the caller's array, the rest of the array is untouched |
| `Sessions.Connection.Read` | pkg/remotedialer/connection.go:72-96 | in place, equal to `Receive`, with the returned bytes in the caller's array and nothing else changed there |
| `Sessions.Session.constructor` | pkg/remotedialer/session.go:42-50 | a new session has no connection and counts ids from 1 |
| `Sessions.Session.WriteError` | pkg/remotedialer/message.go:171-174 | an Error frame goes out unless the link has failed |
| `Sessions.Session.Write` | pkg/remotedialer/connection.go:98-111 | refused with the sticky error once that is set; otherwise one Data frame with all the bytes, and an error exactly when the link has failed |
| `Sessions.Session.CloseConnection` | pkg/remotedialer/session.go:149-159 | only the call that finds the entry announces the error and closes the queue |
| `Sessions.Session.Register` | pkg/remotedialer/session.go:161-167 | a fresh connection enters the table beside the others, which keep their state |
| `Sessions.Session.ServerConnect` | pkg/remotedialer/session.go:172-188 | a new id, its entry, then its Connect frame; undone and closed when the link has failed |
| `Sessions.Session.CopyIn` | pkg/remotedialer/session.go:137-141 | the chunks of a Data frame are queued in order until its end, a refused chunk or a failing reader; the last two close the connection |
| `Sessions.CloseAllDoes` | pkg/remotedialer/session.go:195-206 | closing the session empties the table, closes each entry's queue, announces each one while the link is up and touches no other connection |
| `Sessions.Session.CloseNext` | pkg/remotedialer/session.go:201-203 | one entry of the ranged map is closed and announced |
| `Sessions.Session.Close` | pkg/remotedialer/session.go:195-206 | in place, equal to closing all entries in the order met, each exactly once, with an empty table at the end |
| `Sessions.Session.ServeMessage` | pkg/remotedialer/session.go:109-147 | one frame served in place, equal to `Accept` for Connect and `ServeNow` otherwise; stops exactly for a Connect that is not allowed |
| `Sessions.TailIsARun` | pkg/remotedialer/connection.go:36-39 | an uninterrupted close is a run of the step system |
| `Sessions.DropIsARun` | pkg/remotedialer/session.go:149-159 | so is closeConnection called by the serve loop |
| `Sessions.CopyIsARun` | pkg/remotedialer/session.go:137-141 | so is the copy of a Data frame in chunks of any size, cut short by a refused chunk or a failing reader |
| `Sessions.ServeIsARun` | pkg/remotedialer/session.go:109-159 | so is serveMessage on a Data or Error frame: what holds of all runs holds of the object's method |
| `Sessions.ConnectIsARun` | pkg/remotedialer/session.go:117-123 | an allowed Connect is one step |
| `Sessions.ServerConnectIsARun` | pkg/remotedialer/session.go:172-188 | so is serverConnect a run, with its undoing when the link has failed |
| `Sessions.CloseIsARun` | pkg/remotedialer/session.go:195-206 | so is the closing of a whole session, in every order of its entries |
| `Codec.UvarintRoundTrip` | pkg/remotedialer/message.go:86-99 | an encoded unsigned varint reads back, leaving what follows, for every value of the width |
| `Codec.VarintRoundTrip` | pkg/remotedialer/message.go:86-99 | so does every int64 |
| `Codec.VarintValue` | pkg/remotedialer/message.go:155-165 | the bytes of an integer are the 7-bit groups, lowest first, of 2x, or of -2x - 1 below zero, all but the last marked |
| `Codec.ReadExact` | pkg/remotedialer/message.go:86-99 | on any input a varint is read if and only if it ends within 64 bits, as the value of its groups, leaving what follows |
| `Codec.UvarintLength` | pkg/remotedialer/message.go:155-165 | a value takes at most k bytes exactly when it is below 128^k |
| `Codec.PutVarint` | pkg/remotedialer/message.go:155-165 | in place at an offset: fits exactly when the bytes do, and then writes exactly the encoding and nothing beyond |
| `Codec.Header` | pkg/remotedialer/message.go:155-165 | yields the four varints, and panics exactly when they exceed 24 bytes |
| `Codec.Bytes` | pkg/remotedialer/message.go:151-153 | header and payload, under the same condition |
| `Codec.SplitAddress` | pkg/remotedialer/message.go:116-128 | splits at the first slash and fails exactly when there is none |
| `Codec.NewServerMessage` | pkg/remotedialer/message.go:83-131 | the cursor-consuming decoder equals the decoding function on every input, errors included |
| `Codec.Received.Err` | pkg/remotedialer/message.go:133-149 | however often it is called, the answer is that of the whole body, the text "EOF" as end of file, unless a read failed before; a failed read gives no answer and is not cached |
| `Codec.HeaderRoundTrip` | pkg/remotedialer/message.go:83-114 | id, connID, type and deadline read back in turn, leaving the payload |
| `Codec.MessageRoundTrip` | pkg/remotedialer/message.go:51-131 | decoding an encoded Data or Error message gives back every field and the payload |
| `Codec.DataRoundTrip` | pkg/remotedialer/message.go:51-59 | a Data message comes back whole |
| `Codec.SplitJoin` | pkg/remotedialer/message.go:61-71 | joining is undone by splitting if and only if the protocol has no slash |
| `Codec.ConnectRoundTrip` | pkg/remotedialer/message.go:61-131 | a Connect is refused if and only if its protocol fills the first 100 bytes without a slash; otherwise id and connID come back, the deadline is the number of whole milliseconds toward zero, and protocol and address come back if and only if the protocol has no slash and the text is at most 100 bytes |
| `Codec.ErrorRoundTrip` | pkg/remotedialer/message.go:73-149 | the three bytes "EOF", and nothing else, become the end of the stream; any other text survives if and only if it is at most 100 bytes, and is cut to 100 otherwise |
| `Codec.Kinds` | pkg/remotedialer/message.go:18-22 | the first bytes of Data, Connect and Error messages |
| `Codec.RejectsExact` | pkg/remotedialer/message.go:83-131 | on any input the decoder fails if and only if a field cannot be read or a Connect has no slash in its first 100 bytes |
| `Codec.ErrorHeaderFits` | pkg/remotedialer/message.go:155-165 | Error headers fit for every id and connID |
| `Codec.MillisLength` | pkg/remotedialer/message.go:61-71 | a millisecond deadline made from 64-bit nanoseconds takes at most 7 bytes |
| `Codec.DataHeaderFits` | pkg/remotedialer/message.go:155-165 | Data and Connect headers fit for every id and deadline if and only if connID is below 2^41 |
| `Compare.CmpTrans` | pkg/models/compare.go:28-30 | string comparison is a transitive order |
| `Compare.CmpExact` | pkg/models/compare.go:28-30 | the comparison is lexicographic |
| `Compare.SortByKey` | pkg/models/compare.go:63-64 | in place: sorted by key and a permutation of the input |
| `Compare.ToArray` | pkg/models/compare.go:32-44 | the set as a fresh array in the same order |
| `Compare.MergeSorted` | pkg/models/compare.go:71-101 | the two-index loop ends, conserves both sides as multisets, pairs equal keys index by index, leaves no key over on both sides and keeps every list in the order of its keys |
| `Compare.CompareSets` | pkg/models/compare.go:46-103 | the same for unsorted inputs, duplicates included |
| `Compare.EachKeyPairedMin` | pkg/models/compare.go:71-101 | each key is paired exactly min(local, remote) times; only the excess of one side is removed or added |
| `Versions.ParseDecimal` | pkg/models/clusterresource.go:723-729 | a decimal version is read exactly up to 2^31 - 1 and clamped beyond |
| `Versions.ParseSigned` | pkg/models/clusterresource.go:723-729 | signs are read; below zero the limit is -2^31 |
| `Versions.ParseGarbage` | pkg/models/clusterresource.go:723-729 | what is no number counts as version 0 |
| `Versions.RowObject.UpdateFromRemoteObject` | pkg/models/clusterresource.go:719-740 | in place on the copy: refused before any field changes if and only if the object is older than the copy |
| `Versions.RowTable.UpdateFromRemoteObject` | pkg/models/cluster_api.go:80-101 | succeeds if and only if the object is not older than the copy, the cluster is found and the write goes through or is not needed; then exactly the columns that differ between copy and object are written to the stored row, otherwise nothing |
| `Versions.EndsAtGreatest` | pkg/models/clusterresource.go:719-740 | deliveries that do not overlap, in whatever order: the stored version never decreases and ends at the greatest one |
| `Versions.EndsAsGreatest` | pkg/models/clusterresource.go:719-740 | and the row ends with the fields of that object, if it is the only one of its version |
| `Versions.Confluent` | pkg/models/clusterresource.go:1173-1199 | two deliveries of the same objects, in any order and with any repetitions, leave the same row if the greatest version belongs to one object |
| `Versions.ConfluentExact` | pkg/models/clusterresource.go:1173-1199 | all such deliveries agree if and only if the greatest version belongs to one object |
| `Versions.GoesBackExact` | pkg/models/cluster_api.go:80-101 | an update against an earlier copy lowers the stored version if and only if it is accepted, changes the version and brings one below the stored one |
| `Versions.NeverBackExact` | pkg/models/cluster_api.go:80-101 | over every run of fetches and updates the stored version never goes back if and only if no update is overtaken |
| `Versions.OverlappingGreatest` | pkg/models/cluster_api.go:80-101 | and then it ends at the greatest version any update brought, however the copies overlap |
| `Versions.SafeUpdateExact` | pkg/models/cluster_api.go:80-101 | whatever object it brings, an update does not lower the stored version if and only if its copy is not behind the stored row |
| `Versions.NeverBehindExact` | pkg/models/cluster_api.go:80-101 | over every run no update would go back whatever it brought if and only if no copy is behind at its update |
| `Versions.WriteExact` | pkg/models/cluster_api.go:80-101 | an update leaves the object's fields in the stored row if and only if no field agrees with the object in the copy only |
| `Versions.UndisturbedDelivers` | pkg/models/cluster_api.go:80-101 | updates that find the row as their copy was fetched are deliveries, in the order of the updates |
| `Versions.StepCopies` | pkg/models/cluster_api.go:68-101 | a fetch takes the row as stored, an update uses its copy up, and nothing else touches a copy |
| `Versions.OvertakenRun` | pkg/models/cluster_api.go:68-101 | a sync job with a copy of version 4 writes version 5 over version 6 |
| `Versions.TornRun` | pkg/models/cluster_api.go:68-101 | a job whose object agrees with its copy in the name leaves another's name under its own version |
| `Versions.CheckIsExact` | pkg/models/clusterresource.go:723-732 | the check tells newer from older if and only if not both versions are at or beyond 2^31 - 1 with the stored one larger |
| `Versions.LargeVersionsGoBack` | pkg/models/clusterresource.go:723-732 | a row at version 2^31 + 1 accepts version 2^31 |
| `Versions.SmallVersionsOneTop` | pkg/models/clusterresource.go:723-732 | below 2^31 equal versions mean equal texts, so confluence applies |
| `Mirror.PassMirrors` | pkg/models/clusterresource.go:490-572 | a pass without error leaves exactly one row per remote object, in step with it, plus unmatched failed rows; other clusters' rows are untouched |
| `Mirror.SecondPassIdle` | pkg/models/clusterresource.go:490-572 | a further pass on the same objects deletes, adds and changes nothing and records no error, if no spared row carries a remote id |
| `Mirror.TwoPasses` | pkg/models/clusterresource.go:490-572 | two passes in a row, the list in any order: the second is idle under the same proviso |
| `Mirror.ClashDeletes` | pkg/models/clusterresource.go:543-549 | where a spared row shares an id, each outcome of the diff has a twin that deletes the live row |
| `Mirror.ClashBreaks` | pkg/models/clusterresource.go:603-611 | whenever the proviso fails, some outcome of the diff deletes a live row |
| `Mirror.IdleIffNoClash` | pkg/models/clusterresource.go:535-549 | a second pass deletes nothing under every outcome of the diff if and only if the proviso holds |
| `Mirror.ClashRun` | pkg/models/clusterresource.go:543-549 | a table of two rows with one external id and name: the first pass is clean and changes nothing, an equal second pass deletes the live row |
| `Mirror.FailedExact` | pkg/models/clusterresource.go:603-611 | a row is spared if and only if its status ends in `_fail` or `_failed` |
| `Mirror.UpdatedExact` | pkg/models/clusterresource.go:551-559 | whichever updates succeed, no row comes or goes, and a matched row is untouched if and only if its object is older or a needed write is refused, and otherwise in step with its object |
| `Mirror.AddedExact` | pkg/models/clusterresource.go:561-570 | whichever inserts succeed, the rows that were there stay, every new row is made for an object, and every object has a row of its name or its insert was refused |
| `Mirror.InsertsExact` | pkg/models/clusterresource.go:574-601 | the inserts meet no error if and only if each version is not negative, nothing is refused, and no name is taken by a row or an earlier object |
| `Mirror.PassOutcome` | pkg/models/clusterresource.go:490-572 | every pass, with errors or without: what becomes of each unmatched, spared, matched, undeletable and new row |
| `Mirror.GoneExact` | pkg/models/clusterresource.go:543-549 | a row goes if and only if it is of the cluster, unmatched, not spared and deletable |
| `Mirror.MatchedById` | pkg/models/clusterresource.go:531-541 | rows and objects are matched by external id |
| `Mirror.WellIsClean` | pkg/models/clusterresource.go:543-570 | with all deletions done, the pass is clean if and only if no update is refused and every insert goes through |
| `Mirror.Table.GetClusterModelObjects` | pkg/models/clusterresource.go:440-462 | lists each row of the cluster once and no other |
| `Mirror.Table.DeleteRemoved` | pkg/models/clusterresource.go:603-615 | deletes exactly the unmatched rows that are not in a failed state and can be deleted; no error if and only if all of them can |
| `Mirror.Table.UpdateCommon` | pkg/models/clusterresource.go:551-559 | updates the matched rows in order; no error if and only if every object is accepted and every change can be written |
| `Mirror.AddedNamesUnique` | pkg/models/clusterresource.go:583-589 | adding never gives two rows of the cluster one name |
| `Mirror.Table.NewFromRemoteObject` | pkg/models/clusterresource.go:574-601 | in place; succeeds if and only if the name is free, the version not negative and insert and update go through; a taken name or a refused insert changes nothing, a failure after the insert leaves a bare row |
| `Mirror.Table.AddNew` | pkg/models/clusterresource.go:561-570 | adds the new objects in order and counts the failures |
| `Mirror.Table.AnyInTask` | pkg/models/clusterresource.go:517-524 | finds whether a listed row is in a task |
| `Mirror.Table.ApplyDiff` | pkg/models/clusterresource.go:543-570 | the three loops leave other clusters alone and every row as `PassOutcome` says; no error if and only if no row to delete is stuck, no update refused and every insert goes through, and then exactly the table of a clean pass |
| `Mirror.Table.Sync` | pkg/models/clusterresource.go:490-572 | the whole pass in place: refused while a row is in a task; otherwise the outcome of `PassOutcome`, no error if and only if everything went through, and then the mirror property with the rows and objects named |
| `ManagerTree.SyncableManagers.AddSubManager` | pkg/models/syncbase.go:27-34 | appended behind the earlier ones; managers registered once each stay so if and only if the new ones differ and none was registered before |
| `ManagerTree.ForestExact` | pkg/models/syncbase.go:27-34 | the forest that sync and purge walk has exactly the nodes the registered lists lead to |
| `ManagerTree.EachManagerOnce` | pkg/models/clusterresource.go:464-488 | managers registered once each are synced at most once in a run |
| `ManagerTree.SyncClusterResources` | pkg/models/clusterresource.go:464-488 | visits a prefix of the pre-order; all of it when nothing fails, otherwise up to the first manager that fails |
| `ManagerTree.PreorderExact` | pkg/models/clusterresource.go:464-488 | the pre-order lists exactly the managers of the forest |
| `ManagerTree.PreorderOnce` | pkg/models/clusterresource.go:464-488 | and each of them once |
| `ManagerTree.PreorderSorted` | pkg/models/clusterresource.go:464-488 | and in the order of the lists, each manager with everything below it before the next |
| `ManagerTree.AncestorsFirst` | pkg/models/clusterresource.go:464-488 | in pre-order every node follows each of its ancestors |
| `ManagerTree.SyncedAfterAncestors` | pkg/models/clusterresource.go:464-488 | a manager is visited only after all its ancestors were synced without error |
| `ManagerTree.Store.PurgeManager` | pkg/models/clusterresource.go:804-819 | deletes only this manager's rows of the cluster, and succeeds, with none left, if and only if none of them was undeletable |
| `ManagerTree.Store.PurgeSub` | pkg/models/clusters.go:1075-1090 | succeeds if and only if no manager of the forest held an undeletable row of the cluster; the managers purge in post-order, each finding its descendants' rows gone; on success none is left anywhere, otherwise it stops at a manager that holds such a row; nothing else changes |
| `ManagerTree.Store.PurgeTree` | pkg/models/clusters.go:1075-1090 | one turn of its loop |
| `ManagerTree.RegisteredManagers` | pkg/models/syncbase.go:27-34 | a manager is in the forest if and only if some chain of registrations leads to it |
| `ManagerTree.PurgedEverywhere` | pkg/models/clusters.go:1071-1090 | so after a successful purge no manager registered below the root has a row of the cluster |
| `ManagerTree.ReplaysDeletes` | pkg/models/clusters.go:1075-1090 | a sequence of such purges touches no other cluster's row and adds none |
| `Federation.StepKeyed` | pkg/models/fed_api.go:181-213 | every step keeps at most one joint row per object and cluster |
| `Federation.StepRows` | pkg/models/fed_api.go:181-248 | a joint row leaves if and only if it is detached by its own pair with the object unlocked or deleted by the purge that holds it; none changes; one enters if and only if an attach inserts its own |
| `Federation.RowStays` | pkg/models/fed_api.go:229-248 | over every run a joint row never changes, and goes only by a detach of that very object and cluster or a purge of that cluster |
| `Federation.StepTables` | pkg/models/federated_resource.go:292-305 | an object goes if and only if its delete finds it unlocked and on no existing cluster, a cluster if and only if its purge is through |
| `Federation.StepLocks` | pkg/models/fed_api.go:181-213 | an attach holds its object from finding the cluster until it has found a row, inserted one or failed |
| `Federation.PurgeLists` | pkg/models/federated_resource.go:117-126 | a purge lists exactly the existing objects with a row on the cluster |
| `Federation.StepPurges` | pkg/models/federated_resource.go:127-142 | only its own steps change a purge: each lookup takes one object off the list and holds a row of it, if there is one |
| `Federation.StepSound` | pkg/models/fed_api.go:181-248 | a step keeps every joint row's object and cluster in place if and only if it is not an unsafe insert |
| `Federation.RunSound` | pkg/models/fed_api.go:181-248 | over every run the rows stay unique, and every state on the way is sound if and only if every insert was safe |
| `Federation.DanglingRun` | pkg/models/fed_api.go:185-208 | a cluster deleted between an attach's check and its insert leaves a joint row without cluster, and then without object |
| `Federation.ReplacedRun` | pkg/models/federated_resource.go:127-142 | the purge looks up a row, a detach and an attach replace it, the purge deletes the old one and the cluster is dropped over the new one |
| `Federation.UnsoundIsLost` | pkg/models/federated_resource.go:117-144 | from every state that is not sound some run without inserts reaches a joint row whose object or cluster is gone |
| `Federation.Drain` | pkg/models/clusters.go:1092-1101 | the rest of a cluster deletion, uninterrupted, drops the cluster and leaves a joint row its purge had passed by |
| `FederationStore.PurgeExact` | pkg/models/federated_resource.go:117-144 | deleting the first row per object leaves none for the cluster if and only if no two rows share an object and every object exists |
| `FederationStore.DeleteKeepsSound` | pkg/models/clusters.go:1050-1070 | in a sound table the purge removes exactly the cluster's rows, and dropping the cluster keeps the table sound |
| `FederationStore.FedStore.GetJointModel` | pkg/models/federated_joint_resource.go:156-166 | returns a row of the pair, and none exactly when there is none |
| `FederationStore.FedStore.JustAttachCluster` | pkg/models/fed_api.go:181-213 | in place, a run of the step system; refused exactly when the cluster is missing, the pair attached or the insert fails; otherwise one unbound row is added |
| `FederationStore.FedStore.DetachCluster` | pkg/models/fed_api.go:229-248 | in place: one row of the pair is deleted and every other row stays; with unique rows none of the pair is left if and only if it succeeds |
| `FederationStore.FedStore.DeleteFed` | pkg/models/federated_resource.go:292-305 | the object goes exactly when no existing cluster is attached |
| `FederationStore.FedStore.PurgeAllByCluster` | pkg/models/federated_resource.go:117-144 | each existing attached object loses exactly one row; only deletable rows of such objects on the cluster go; with unique rows it succeeds if and only if none of those is undeletable |
| `FederationStore.FedStore.RealDelete` | pkg/models/clusters.go:1050-1070 | from a sound table: on success the cluster and exactly its rows go, and the table stays sound; with unique rows it succeeds if and only if no row of it is undeletable and the cluster row can be deleted |
| `Reconcile.ReconcileBinds` | pkg/models/fed_api.go:424-512 | a successful reconcile leaves the joint row naming an existing resource of its own cluster; an update creates nothing |
| `Reconcile.BoundReconcile` | pkg/models/fed_api.go:398-445 | a bound row: every attempt leaves all tables as they are, and succeeds, as an update of the same resource, if and only if object, cluster and writes are there |
| `Reconcile.CommitFrame` | pkg/models/fed_api.go:424-512 | whatever its lookup found, an attempt alters no existing resource, adds at most the one it may create and rebinds no other joint row |
| `Reconcile.LookupExact` | pkg/models/fed_api.go:398-422 | what the lookup of a joint row finds, for every table: the resource it names, or the one its object's name stands for, or nothing, or an error |
| `Reconcile.OutcomeExact` | pkg/models/fed_api.go:424-512 | every undisturbed attempt: when it updates, creates, fails or crashes, which id its row carries then and which resource is new |
| `Reconcile.BoundExact` | pkg/models/fed_api.go:398-512 | a bound row stays bound to its resource over every run in which neither is deleted if and only if no attempt under way on it found nothing, or another resource than its copy of the row names |
| `Reconcile.BoundForGood` | pkg/models/fed_api.go:398-512 | with unique names, no attempt on the row at the start, and no outside deletion or rename: over every run the moment the row is bound it is bound for good, through overlapping and earlier attempts, and none of them changes any table |
| `Reconcile.CalmCommit` | pkg/models/fed_api.go:424-512 | an attempt on a bound row that is not dangerous changes no table |
| `Reconcile.DangerousBreaks` | pkg/models/fed_api.go:424-512 | a dangerous attempt unseats the row in some run: its cluster comes back, its object is renamed, and it commits |
| `Reconcile.OvertakenRun` | pkg/models/fed_api.go:398-512 | an attempt that looked up a resource since deleted rebinds a row that another attempt has bound to a new one |
| `Reconcile.RunSingular` | pkg/models/fed_api.go:474-477 | over every run of attempts, overlapping and failing, no second resource of one name appears in a cluster |
| `Reconcile.AdoptsOrSticks` | pkg/models/fed_api.go:474-482 | created but not bound: later attempts adopt that resource if and only if the row was unbound before, and otherwise the row is stuck; neither creates a second one |
| `Reconcile.StuckFails` | pkg/models/fed_api.go:424-477 | every attempt on a stuck row fails and changes nothing |
| `Reconcile.StuckStays` | pkg/models/fed_api.go:424-477 | over every run that leaves the row, its object and the two resources alone it stays stuck |
| `Reconcile.DeletionFrees` | pkg/models/fed_api.go:424-482 | deleting the resource in the way frees it |
| `Reconcile.StuckRun` | pkg/models/fed_api.go:474-482 | a row bound to a missing resource whose new one could not be bound: every attempt fails |
| `Reconcile.JointStore.FetchByIdOrName` | pkg/models/clusterresource.go:306-316 | in place, by id first, then by name; two rows of one name are an error |
| `Reconcile.JointStore.IsResourceExist` | pkg/models/fed_api.go:398-422 | in place, equal to the lookup function |
| `Reconcile.JointStore.SetResource` | pkg/models/federated_joint_resource.go:192-201 | writes the id where it differs from the copy or, on error, nothing |
| `Reconcile.JointStore.DoCreate` | pkg/models/fed_api.go:474-477 | a new row for the object's name, refused if and only if the name is taken in the cluster or data or insert fail |
| `Reconcile.JointStore.ReconcileResource` | pkg/models/fed_api.go:424-512 | in place, equal to the reconcile function, outcome included |
| `Registry.StepKeeps` | pkg/client/manager.go:74-129 | every step keeps: entries under their own cluster id, a client open while in the map or leaving it and closed once otherwise; no entry is overwritten |
| `Registry.RunKeeps` | pkg/client/manager.go:74-129 | the same over every run; a client out of the map never comes back |
| `Registry.ClosedOnce` | pkg/client/manager.go:118-129 | in every run: closed at most once, between operations closed if and only if out of the map, and a lookup returns only the open client of that cluster |
| `Registry.GoneForGood` | pkg/client/manager.go:74-83 | a client that has left the map is never returned again |
| `Registry.ClustersManager.AddClient` | pkg/client/manager.go:92-111 | in place, a run of the step system; succeeds if and only if running, absent and built |
| `Registry.ClustersManager.RemoveClient` | pkg/client/manager.go:118-129 | in place, a run of the step system; afterwards no client, others untouched |
| `Registry.ClustersManager.UpdateClient` | pkg/client/manager.go:113-116 | remove then add; a client afterwards if and only if running and built |
| `Registry.ClusterTable.Check` | pkg/models/clusters.go:698-723 | one cluster: failed means lost without client; recovered means running with a client, or the old status without one if it can be written back; healthy and running means unchanged |
| `Registry.CheckedMeans` | pkg/models/clusters.go:698-723 | after its check a cluster has a client only if it answered and is running, and is running without one only if it was so before or could not be written back |
| `Registry.ClusterTable.ClusterHealthCheckTask` | pkg/models/clusters.go:689-725 | the same for every listed cluster, all others unchanged, the registry invariant kept |
| `Labels.NoFalseNegative` | pkg/models/helper.go:670-685 | equal labels are always recognised, empty values included |
| `Labels.ScanExact` | pkg/models/helper.go:670-685 | the comparison is right if and only if neither the hash of the second map stands in for a label nor the larger map differs by labels with empty values only |
| `Labels.ScanExactNonEmpty` | pkg/models/helper.go:670-685 | for labels without empty values only the hash can hide a label |
| `Labels.EmptyHides` | pkg/models/helper.go:673-681 | two different labels with empty values are taken for equal |
| `Labels.HashHides` | pkg/models/helper.go:673-681 | such maps exist, and swapping the arguments changes the answer |
| `Labels.EqualIgnoreHash` | pkg/models/helper.go:670-685 | the swap-and-scan loop decides agreement of the larger map's labels with the smaller's, and equality of the rest |
| `Labels.FindNewReplicaSet` | pkg/models/helper.go:644-654 | the first recognised ReplicaSet, or none |
| `Labels.FirstMatch` | pkg/models/helper.go:644-654 | for ReplicaSets that carry the hash, and do not differ by empty labels only, it is the first one with the deployment's template |
| `DeepMerge.MergeMaps` | pkg/models/release.go:241-258 | the copying and merging loops compute the merge; termination by the nesting of the right map |
| `DeepMerge.Identity` | pkg/models/release.go:222-231 | the empty map is a left and right identity |
| `DeepMerge.Idempotent` | pkg/models/release.go:241-258 | merging a value with itself gives the value |
| `DeepMerge.LeavesOfMerge` | pkg/models/release.go:241-258 | the merge has exactly the leaves of the right map and those of the left map the right does not cover |
| `DeepMerge.AbsorbedExact` | pkg/models/release.go:241-258 | the left map leaves no trace if and only if its keys are in the right one all the way down |
| `DeepMerge.AssociativeExact` | pkg/models/release.go:241-258 | associativity holds if and only if every leaf of the middle map between two maps finds the left absorbed by the right |
| `DeepMerge.Associative` | pkg/models/release.go:241-258 | associativity whenever no leaf of the middle map sits where both outer maps hold maps |
| `DeepMerge.NotAssociative` | pkg/models/release.go:246-256 | a triple for which it fails |
| `PodResources.AddAll` | pkg/models/pods.go:421-436 | adds one container's amounts name by name |
| `PodResources.RaiseAll` | pkg/models/pods.go:438-459 | raises each amount to an init container's where that is more |
| `PodResources.EffectiveAmounts` | pkg/models/pods.go:418-462 | each amount is the greatest of the containers' sum and every init container's amount, defined if and only if somebody names it |
| `PodResources.PodRequestsAndLimits` | pkg/models/pods.go:418-462 | the same for requests and for limits |
| `PodResources.OrderIrrelevant` | pkg/models/pods.go:418-462 | reordering containers or init containers changes no amount |
| `PodResources.NodeAllocated` | pkg/models/nodes.go:106-130 | a node's amounts are the sums over its pods, defined if and only if some pod names them |
| `Usage.AmountUsage.Add` | pkg/api/usage.go:22-27 | in place, field by field, the other record read as it was |
| `Usage.PodUsage.Add` | pkg/api/usage.go:52-56 | likewise |
| `Usage.NodeUsage.Add` | pkg/api/usage.go:73-81 | the whole record becomes the sum of the two |
| `Usage.GetNodePods` | pkg/models/nodes.go:275-283 | the pods of the node, in order |
| `Usage.FillUsage` | pkg/models/nodes.go:298-306 | requests and limits grow by the sums over the pods, nothing else changes |
| `Usage.UsageTotal` | pkg/models/nodes.go:285-335 | a fresh record equal to the sum over the nodes |
| `Usage.Conservation` | pkg/models/nodes.go:285-335 | each pod is counted once for every listed node with its node id; node count = ready + not ready |
| `Usage.CapacitySums` | pkg/models/nodes.go:285-335 | capacities are the sums over the nodes |
| `Usage.EachPodOnce` | pkg/models/nodes.go:285-335 | with distinct node ids the totals are the plain sums over the pods on listed nodes |

## Left out

- Websocket dialing, upgrade, ping, deadlines and authentication: the link is a queue of frames that, once failed, stays failed.
- Sessions.Session.Close: entries leave the map one by one instead of all at the end; both happen under the session's lock.
- Frames of an unknown type, and malformed frames: the tunnel carries Data, Connect and Error; the decoder covers the rest on its own.
- The 64-bit wrap-around of `nextConnID` and `idCounter`, and of the usage sums: ids and sums are unbounded integers.
- The two goroutines of `pipe` are one goroutine with two close steps; what they copy are ordinary Read and Write labels.
- TunnelFaults.ConnectFailureDue: the error of a failed link write is one value, and so is each of the texts for "not found", "disconnect" and "backed up reader".
- Sessions.Connection.Read: a Read that would wait for the queue returns `Blocked` instead of waiting.
- Compare.SortByKey: an insertion sort in place of the library's sort; only "sorted and a permutation" is used of it.
- Mirror.Table.NewFromRemoteObject: the name lookup before the insert ignores namespaces and owner filters.
- Mirror: one pass is not interleaved with events; overlapping updates of one row are the subject of `Versions`.
- Helm release rows, which override the version check and the existence test.
- `PerformGC`, the bidirectional-sync gate, `SubmitSyncTask`, `operateSet` and the union fold, `UpdatePodTemplate`.
- Federation: one kind of federated object with its joint table; the kinds are independent of each other. One deletion at a time per cluster.
- FederationStore.FedStore.RealDelete: key pairs, components and cluster resources of the same delete are not part of it; `ManagerTree` has the last.
- Reconcile.JointStore.FetchByIdOrName: namespace and owner filters of the lookup.
- Reconcile: the data of create and update are one success flag; the create and the binding write of one attempt are one step.
- Registry.StepKeeps: the delete from the map is one atomic step, while pkg/client/manager.go:126 does it without the lock that lookups take, a data race in Go.
- Registry: what building a client does, and a partly built client that is dropped on error. A client is named by its place in the order of building, its close count kept beside it.
- DeepMerge: `strvals.ParseInto` after the merge in `MergeValues`; YAML parsing.
- PodResources: quantities are exact integers; fractions of capacity are display only.
- Usage.AmountUsage.Add: the memory and cpu records have the same fields and share one class.
- HTTP handlers, list filters, detail formatting, background jobs, component status machines, Kubernetes and Helm client wrappers, certificates: each is a thin layer over a library or a short status list, with no property across calls.
