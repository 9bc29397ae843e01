# Mosquitto operator: a verified model of the credentials path

The operator turns the `MosquittoUser` objects bound to a broker into a password file and an ACL
file, stores them in one Secret per broker, and keeps the broker's objects and statuses in step.
Inside the pod a reloader copies the mounted Secret and signals the broker. This project models
that path from a user list to what a running broker has loaded, and proves what the design
documents promise about it. It also covers the label merge of the broker StatefulSet, the allowlist
for `spec.config`, and the collector of the metrics exporter.

`dafny verify dfyconfig.toml` checks everything.

## Layout

| files | models |
|---|---|
| Text, Sorting, Base64 | Go's string functions, `sort.Slice` with its ties left open, standard base64 |
| PasswordHash, Topics, Credentials, Files, Renderer | `internal/auth`: hashes, topic filters, checks, the two files, one rendering |
| RendererTheorems, Rotation | the renderer over several inputs and several passes; what the stored hashes say about passwords |
| Mounts, Disk, Rounds, Reloader | `internal/reloader`: the kubelet's mounts, the directory of copies and its file operations, one poll, runs of polls and restarts, the polling object |
| ReloaderTheorems, Restarts | the reloader over every interleaving with the kubelet and the broker, and over the lives of its process, killed at any step |
| Labels, StatefulSets, MergeHistory | label merging, the drift check, whole histories of passes and other writers |
| BrokerConfig, VersionLabel | the generated `mosquitto.conf`, the allowlist, the version label |
| Cluster, Watches | the objects of a namespace, refusals, which change wakes which broker |
| PassModel, Standing, Statuses, Rereading, Writes, Pass | one reconcile pass over an API server whose every call may fail, and the log of its writes |
| SelfReading | a user that names the Secret its own broker's pass writes |
| Delivery | the pass, the mount and the reloader together: who can log in |
| Exporter | the mapping of `$SYS` topics and the collector |

Code that updates things in place is modelled in that form: the loops of the renderer, the builders
and the watches are methods with invariants; the reloader's round, a live StatefulSet, the
reconciler and the collector are classes. Each method is proved equal to a function (or to a
relation over old and new state), and the lemmas are about those functions. The reloader's
directory of copies is its journal: how it began and every file operation since. The reconciler's
contracts say that the cluster has become what the logged writes make of it, so neither can change
unlogged.

What lies outside is a parameter. PBKDF2, UTF-8 validity, SHA-256, X.509 pair checking and float
parsing are functions with the hypotheses a lemma names: PBKDF2 returns as many bytes as it was
asked for, SHA-256 tells the contents actually seen apart, the empty pair is not a valid pair. What
happens around each file operation of a round, and which operations fail, is an argument of the
round; which API calls fail, and whether a failed write took effect all the same, is chosen
arbitrarily at each call.

## Results worth knowing

* **A torn copy can be lost for good.** `once` ignores `changed` when `Sync` also returns an error
  (`internal/reloader/run.go:51`, `internal/reloader/reloader.go:92-97`). If passwd has been replaced
  and reading the copy of acl then fails, no signal is pending, and when the acl copy was right all
  along no later round finds anything to signal. `TornSyncIsNeverSignalled` gives the case,
  `ForgetsExactlyWhenTorn` says exactly when a round forgets, and `NeverHalfApplied` proves the
  promise for all runs without such a round.
* **A restarted reloader forgets what was pending.** It is kept in memory only.
  `RestartsForgetExactly` says exactly which lives of the process keep the promise, restarted between
  polls or killed at any step of one, `KilledRoundForgetsExactly` when such a death forgets, and
  `RestartIsNeverMadeUpFor` that the loss is for good.
* **The single-version promise needs a readable link.** `resolveData` falls back to the mount point
  on any error of `Readlink`, not only when there is no link. `OneVersionExactlyWhenLinkRead` and
  `OnePairExactlyWhenLinkRead` prove that every interleaving reads one version if and only if the
  link could be read.
* **A pass need not be idle after itself.** A user may name `<broker>-auth`, which the pass writes, as
  its own credentials. `Reconcile` says exactly when a finished pass leaves an idle world: when every
  user's credentials still hold (`CredentialsHold`: the same, or of the same username and standing with
  a stored hash that verifies the password of now). Where nobody reads keys that the pass writes, this
  can be told beforehand: idle if and only if every user who names the Secret was told already what it
  is told afterwards (`ToldAlready`). For a user whose password is the passwd file itself,
  `LoneIdleExactly` proves over hash.go that there is rest if and only if the user's new hash verifies
  the very file it stands in, and `SelfReadingHappens` gives a PBKDF2 for which no finished pass is
  ever followed by an idle one.
* **A wake-up can be lost to a misnamed owner.** Whether `<broker>-auth` is the broker's own is read off
  the uid of its controller reference, and which broker to wake off the name
  (`MisnamedOwnerIsMissed`).
* **"Without a session, no series" is not an invariant.** A message may be observed before the
  session is recorded. `ValuesWithoutSession` says exactly when.
* **A label given an empty value is not defended.** The drift check reads an absent key as an empty
  value. `NamedKeyStands` says exactly when a pass leaves a key it names on the template, and
  `EmptyLabelStaysDeleted` gives the case.
* **Two load averages can share a series.** Slashes in the topic become underscores in the name;
  `LoadsShareSeries` says exactly when, and `TopicsHaveTheirSeries` that no other two topics do.
* A comment says `spec.config` can declare further listeners
  (`internal/builder/configmap.go:71-74`). The allowlist in the code refuses them, and the model
  follows the code: `AcceptedConfigIsClosed` proves there is exactly one, and fixes everything else
  that bears on who may connect.

## Model

| member | source | states |
|---|---|---|
| Base64.RoundTrip | internal/auth/hash.go:46-47 | decoding gives back exactly the encoded bytes, for every byte sequence, with the decoder that skips line breaks (section 4 of RFC 4648) |
| Base64.QuantumIsBits | internal/auth/hash.go:46-47 | three bytes and the four digits they are written as are the same 24 bits |
| PasswordHash.ParsePrinted | internal/auth/hash.go:34-48 | a printed $7$ hash parses back to its iteration count, salt and key |
| PasswordHash.ParsesExactly | internal/auth/hash.go:69-91 | exactly which texts parse and to what: the prefix, three parts without a dollar sign, a count of at least one, salt and key in base64 and not empty |
| PasswordHash.VerifiesMeans | internal/auth/hash.go:50-63 | a password verifies exactly when it derives the whole stored key under the stored salt and iteration count |
| PasswordHash.FreshOpens | internal/auth/hash.go:34-48 | a fresh hash parses to 1000 iterations, its 64 bytes of salt and the derived key, and verifies exactly the passwords that derive the same key under that salt |
| PasswordHash.KeptForever | internal/auth/render.go:147-154 | whatever was known before, the hash a password gets verifies it, is on one line, and every later call keeps it without reading randomness |
| PasswordHash.KeepOrHashFrom | internal/auth/render.go:147-154 | a known hash is kept, and nothing read, exactly when the password derives its key; otherwise the next 64 bytes become the salt of a fresh hash of 1000 iterations, and it fails exactly when the source is too short or no key is derived |
| PasswordHash.Random.ReadFull | internal/auth/hash.go:38-41 | the salt is the next bytes of the source; too short a source fails and is used up |
| Topics.LevelsProblemMeans | internal/auth/render.go:199-207 | the loop over the levels accepts exactly when every # is the whole last level and every + a whole level |
| Topics.WildcardCheckIsTheStandard | internal/auth/render.go:199-207 | the split-based check is equivalent to the character rules of sections 4.7.1.2 and 4.7.1.3 of OASIS MQTT Version 5.0 |
| Topics.AcceptedTopic | internal/auth/render.go:183-209 | exactly which topics are accepted, character by character |
| Topics.AcceptedNeverReachesDollar | internal/auth/render.go:190-191 | under the matching rule of section 4.7.2 no accepted filter matches a topic that starts with $ |
| Credentials.HashEnvValid | internal/auth/hash.go:34-63 | hash.go over PBKDF2 meets every hypothesis the renderer's theorems make about hashing |
| Credentials.CheckAccepts | internal/auth/render.go:156-181 | exactly which inputs pass the checks, in characters: the username allowlist, no reserved prefix in any letter case, a password, and only standard ACL entries |
| Credentials.ReservedIsApart | internal/auth/render.go:164-167 | a checked username never equals a name with the operator's prefix, in any letter case |
| Credentials.CheckedIsPlain | internal/auth/render.go:156-181 | what passes the checks fits the two line formats and names no $ topic |
| Files.RenderFiles | internal/auth/files.go:28-48 | the two builders hold exactly the passwd and acl lines of the users, in order, with blank lines between blocks |
| Files.PrintsOneMore | internal/auth/files.go:28-48 | character by character, what one more user adds to the two files |
| Files.Hashes | internal/auth/files.go:17-26 | the map filled line by line is the last entry per username of any file, however malformed |
| Files.KnownOnOneLine | internal/auth/files.go:20-24 | no hash read back from any file contains a line break |
| Files.PasswdRoundTrip | internal/auth/files.go:28-36 | reading a printed passwd file gives exactly the printed users and hashes, in order |
| Files.HashesRoundTrip | internal/auth/files.go:17-48 | the hash the next pass finds for each printed user is the printed one |
| Files.AclRoundTrip | internal/auth/files.go:36-43 | reading a printed acl file gives one block per printed user with exactly that user's grants; none moves between users |
| Sorting.OnlySorting | internal/auth/render.go:142 | sorting without ties has one outcome, whatever sort is used |
| Renderer.CanonicalKeeps | internal/auth/render.go:238-256 | the canonical ACL list has the same entries, each once, in order |
| Renderer.CanonicalUnique | internal/auth/render.go:238-239 | reordering or repeating entries does not change the canonical list |
| Renderer.CanonicalizeAcls | internal/auth/render.go:240-256 | the loop with its seen map and unstable sort computes the canonical list |
| Renderer.ResolveCollisions | internal/auth/render.go:213-236 | winners are the first of each username in an age order of the candidates, and every other candidate gets a conflict naming the holder |
| Renderer.CheckInputs | internal/auth/render.go:105-114 | refused inputs get their reason as verdict, the others become candidates |
| Renderer.HashWinners | internal/auth/render.go:118-129 | winners are hashed one after the other from one random source and admitted |
| Renderer.HashReserved | internal/auth/render.go:131-140 | the operator's principals follow, and need prefix and password |
| Renderer.Render | internal/auth/render.go:97-145 | for any ties in its sorts, the result and the use of randomness are those of one function of the arguments |
| Renderer.WinnersHold | internal/auth/render.go:224-235 | the winners are exactly the holders, one per username |
| Renderer.HashedOnce | internal/auth/render.go:118-140 | a pass that hashes all its logins names no username twice |
| RendererTheorems.WinnersAreOldest | internal/auth/render.go:213-235 | an input wins exactly when it is the least checked input of its username by creation time, then name |
| RendererTheorems.VerdictOne | internal/auth/render.go:104-129 | an input is admitted exactly when it is the oldest of its username, and otherwise why not |
| RendererTheorems.VerdictsSayWhy | internal/auth/render.go:90-92 | every input gets exactly one verdict, nothing else gets one, and each verdict is true |
| RendererTheorems.AcceptedCounts | internal/auth/render.go:93-94 | Accepted is the number of admitted inputs |
| RendererTheorems.NewcomerTakesOnlyWhenOlder | internal/auth/render.go:213-223 | a newcomer takes a name from its holder exactly when it passes the checks, has that username and is older |
| RendererTheorems.RenderOrderIndependent | internal/auth/render.go:99-101 | every permutation of the inputs renders the same data, verdicts and count under the same random stream |
| RendererTheorems.AclOrderIrrelevant | internal/auth/render.go:238-239 | reordering or repeating any user's ACL entries changes nothing of the data, the reasons of the verdicts and the count |
| RendererTheorems.FilesNameOnlyTheEntitled | internal/auth/render.go:142-143 | read by their formats, both files name the same users in one strictly ascending order, each entitled, with a hash verifying its password and exactly its grants |
| RendererTheorems.FilesNameAllTheEntitled | internal/auth/render.go:120-143 | every oldest input and every principal is in both files with its own hash and grants |
| RendererTheorems.DollarGrantsAreReserved | internal/auth/render.go:19-35 | a grant on a $ topic in the files belongs to one of the operator's principals |
| RendererTheorems.ExporterReadsSys | internal/auth/render.go:19-35 | the one name of the operator's own in a rendered acl file is the exporter, which may read exactly the topics whose first level is $SYS, and write none |
| RendererTheorems.SameLoginsSameBytes | internal/auth/render.go:97-102 | users that come to the same logins render the same bytes from what an earlier pass wrote, with no randomness, whatever that pass had found |
| RendererTheorems.RenderFixpoint | internal/auth/render.go:147-154 | rendering on one's own output returns the identical result and leaves the random source alone |
| RendererTheorems.OperatorFixpoint | internal/auth/render.go:104-154 | the same over PBKDF2 and the exporter's principal, for any previous Secret data, even with an exhausted random source |
| Rotation.StoredHashesOpen | internal/auth/render.go:118-143 | every line of a rendered passwd file parses to a key that its entitled user's password derives under the salt and count of the line |
| Rotation.HashFollowsPassword | internal/auth/render.go:147-154 | a user's stored hash stays the same exactly when the password of now derives its key; otherwise it is fresh, under a salt drawn from the random source |
| Rotation.ChangedPasswordReplacesHash | internal/auth/render.go:147-154 | a password that PBKDF2 tells from the one before replaces the stored hash, and the old one verifies against the new hash only if PBKDF2 derives one key from both under the new salt |
| Mounts.VersionsNeverChange | internal/reloader/reloader.go:45-56 | on either mount a published version is never seen with other contents, whatever the kubelet does next |
| Disk.AlwaysWholeOn | internal/reloader/reloader.go:76-78 | operations that keep every file whole, one list after the other, keep every file whole |
| ReloaderTheorems.WriteIsAtomic | internal/reloader/reloader.go:103-126 | the file operations of writeAtomic, each failure included, end with the copy replaced or everything as before, and after each of them every file is entirely old or entirely new |
| ReloaderTheorems.NeverHalfWritten | internal/reloader/reloader.go:76-101 | the file operations of a whole Sync end with the copies it should leave, and after each of them, whatever fails or happens meanwhile, each copy is entirely old or entirely the one just read |
| Reloader.Process.WriteAtomic | internal/reloader/reloader.go:103-126 | performs exactly those operations, each an entry of the journal that is the directory, and fails exactly when it did not replace the copy |
| Reloader.Process.CopyAll | internal/reloader/reloader.go:86-100 | the loop of Sync performs exactly the operations it should and ends as it should |
| Reloader.Process.ReadFiles | internal/reloader/reloader.go:59-74 | reads through one resolved link, and cannot touch the directory of copies |
| Reloader.Process.SyncCopies | internal/reloader/reloader.go:76-101 | the end and the file operations of Sync, so that the directory holds whole copies after every operation |
| Reloader.Process.CheckPair | internal/reloader/tls.go:39-61 | state and both results of checkTLS on what was read; what these mean is CacheRefinesChecking |
| Reloader.Process.Signal | internal/reloader/reloader.go:152-167 | without a broker, or when sending fails, nothing happens; otherwise the broker has loaded the copies |
| Reloader.Process.Poll | internal/reloader/run.go:47-80 | one poll: the new world and state, what was sent, and what was done to the directory |
| Reloader.Process.PollAll | internal/reloader/run.go:25-37 | the loop of polls is the run the theorems are about |
| ReloaderTheorems.RoundKeepsSignalDue | internal/reloader/run.go:47-80 | a round that is not torn leaves the broker up to date or a signal pending, whatever happens between its operations |
| ReloaderTheorems.NeverHalfApplied | internal/reloader/run.go:20-22 | the same after every round of every run, over every interleaving with the kubelet and the broker |
| ReloaderTheorems.ForgetsExactlyWhenTorn | internal/reloader/run.go:49-56 | with a broker that runs on, a round breaks that promise if and only if Sync failed after replacing a copy, nothing was pending and no renewed certificate was seen |
| ReloaderTheorems.TornSyncIsNeverSignalled | internal/reloader/reloader.go:92-97 | the failing case: after it no number of healthy rounds signals the change |
| ReloaderTheorems.OneVersion | internal/reloader/reloader.go:59-62 | a set read through one readable link is the version that link named, however often it is swapped meanwhile |
| ReloaderTheorems.OneVersionExactlyWhenLinkRead | internal/reloader/reloader.go:48-62 | for every linked mount and several files: over every interleaving with the kubelet the set read is one published version, if and only if the link could be read |
| ReloaderTheorems.UnreadableLinkMixes | internal/reloader/reloader.go:48-52 | the failing family: from any world a kubelet that publishes before the last file is read mixes two versions |
| ReloaderTheorems.OnePairExactlyWhenLinkRead | internal/reloader/tls.go:24-37 | certificate and key come from one published version over every interleaving, if and only if the link could be read |
| ReloaderTheorems.UnreadSourceChangesNothing | internal/reloader/reloader.go:81-85 | a Sync that cannot read its source has replaced nothing |
| ReloaderTheorems.SyncSucceeds | internal/reloader/reloader.go:76-101 | a successful Sync leaves every copy equal to the set read, touches nothing else, and reports a change exactly when some copy differed |
| ReloaderTheorems.CacheRefinesChecking | internal/reloader/tls.go:46-61 | after every check the cached validity is that of the pair just read; changed says whether the pair differs from the last one, and an error is reported exactly when it is new and not usable |
| ReloaderTheorems.SignalsOnlyOverValidPairs | internal/reloader/run.go:58-70 | over any run a signal is sent only in a round whose own TLS read was a matching pair |
| ReloaderTheorems.NewsMeans | internal/reloader/run.go:49-66 | over any run, what a round takes for a change: a successful Sync that replaced a copy, or a usable pair other than the one read before |
| ReloaderTheorems.NewsIsSignalled | internal/reloader/run.go:20-22 | a change that a round sees is signalled in it, or stays pending until a round that signals |
| ReloaderTheorems.RenewalIsSignalled | internal/reloader/run.go:58-79 | over any run, a round that reads a usable pair other than the one read before signals, or leaves a signal pending until one is sent |
| ReloaderTheorems.RoundConverges | internal/reloader/run.go:47-80 | one round in which no operation fails and nothing is published after its link read, while the broker starts and stops at will, ends with the copies equal to the Secret, and a running broker loaded with nothing pending |
| ReloaderTheorems.QuietRoundConverges | internal/reloader/run.go:47-80 | an undisturbed round with a running broker leaves a world that needs nothing more |
| ReloaderTheorems.ThenSilence | internal/reloader/run.go:72-79 | with the copies right and nothing pending, no round over unchanged mounts changes or signals anything |
| Restarts.RoundIsItsSteps | internal/reloader/run.go:47-80 | a round is its events, file operations and signal, taken one after the other |
| Restarts.RestartsForgetExactly | internal/reloader/run.go:20-22 | over every life of polls that are not torn, restarts between them and deaths at any step of them, the promise stands all the time if and only if each restart and death leaves the broker working with its copies |
| Restarts.KilledRoundForgetsExactly | internal/reloader/run.go:47-80 | a process killed at any step of a round, the broker running on, leaves the broker behind if and only if some copy has changed and the signal was not sent |
| Restarts.RestartIsNeverMadeUpFor | internal/reloader/run.go:25-44 | what a restart has forgotten no later healthy round signals |
| ReloaderTheorems.EverySignalHasItsChange | internal/reloader/run.go:53-79 | every signal answers a change seen since the signal before it |
| Labels.MergeLabels | internal/common/labels.go:194-208 | the two loops over maps, in any order, give base with overlay written over it |
| Labels.JoinKeys | internal/common/labels.go:210-220 | whatever order the map is walked in, the line is the one of its key set |
| Labels.JoinedKeysInjective | internal/common/labels.go:210-212 | the line identifies the key set |
| Labels.RemovedKeys | internal/common/labels.go:222-239 | the two loops give the keys of the first line that the second lacks, in order |
| Labels.RemovedIsDifference | internal/common/labels.go:222-239 | on two lines of key sets that is their set difference |
| Labels.WithoutKeys | internal/builder/statefulset.go:582-589 | the map without the keys; the argument is not modified |
| StatefulSets.StatefulSet.Build | internal/builder/statefulset.go:168-208 | labels, records and template maps of the built object; the operator's keys win |
| StatefulSets.StatefulSet.Merge | internal/builder/statefulset.go:556-580 | the whole new state of the live object |
| StatefulSets.MergeSettles | internal/builder/statefulset.go:545-580 | after a merge the check reports no change for the same desired object |
| StatefulSets.QuietCheckMeansQuietMerge | internal/builder/statefulset.go:534-554 | when the check reports no change a merge would alter no label or annotation, reading absent as empty, and remove none |
| MergeHistory.PassDelivers | internal/builder/statefulset.go:556-580 | one pass gives each key the operator's value, else the spec's, else nothing if the spec before named it, else what was there |
| MergeHistory.EveryKeyDelivered | internal/builder/statefulset.go:556-580 | the same for every key after every history of passes and other writers |
| MergeHistory.ForeignKeysAreTheSpoken | internal/builder/statefulset.go:556-563 | a key neither operator nor spec names has a value exactly when another writer set it after it had left the specs and nobody touched it since |
| MergeHistory.TemplateAfterPass | internal/builder/statefulset.go:556-580 | the complete contents of the pod template's labels and annotations after a pass, over whole histories |
| MergeHistory.NamedKeyStands | internal/common/labels.go:181-192 | a pass leaves a key it names on the template if and only if its value is not empty, or the check asks for a merge, or it is there |
| MergeHistory.EmptyLabelStaysDeleted | internal/common/labels.go:185-192 | the failing case: a deleted label with an empty value is not put back |
| MergeHistory.SelectorAlwaysMatches | internal/common/labels.go:145-157 | after every pass of every history the template carries the labels by which Services and StatefulSet select the pods, whatever spec and other writers put there |
| MergeHistory.PodsFollowSpec | internal/builder/statefulset.go:534-580 | after every pass the template holds the pod spec and the replicas of that pass, although only a digest is compared, if the digest tells the pod specs of the history apart and nobody else writes it |
| BrokerConfig.FirstRefusedIsFirst | internal/builder/config_allowlist.go:48-65 | the validator names the first line that is not allowed, and accepts exactly when there is none |
| BrokerConfig.ValidatorMeans | internal/builder/config_allowlist.go:48-65 | spec.config is accepted exactly when each of its directives is on the allowlist, and the line named is the first that is not |
| BrokerConfig.NoTuningIsGuarded | internal/builder/config_allowlist.go:9-19 | no directive of the allowlist opens a listener, loads a plugin, touches anonymous access or identities, sets up a bridge or names a file |
| BrokerConfig.GenerateConf | internal/builder/configmap.go:100-167 | the lines appended step by step are the generated file, and for an accepted spec.config it is closed |
| BrokerConfig.ConfSays | internal/builder/configmap.go:90-167 | reading the file gives the fixed directives in order, then those of spec.config, and nothing else, whatever spec.config is |
| BrokerConfig.AcceptedConfigOnlyTunes | internal/builder/configmap.go:97-99 | for every accepted spec.config only allowlisted directives follow the fixed ones, and exactly one listener is opened, on BrokerPort |
| BrokerConfig.AcceptedConfigIsClosed | internal/builder/configmap.go:90-167 | for every accepted spec.config the file says, in guarded directives, exactly this and in this order: each plugin loaded and given its rendered file, the one listener with the TLS pair if there is one, anonymous access off, the username as client ID, and both plugins used by the listener |
| VersionLabel.SanitizeLabelValue | internal/common/labels.go:95-129 | the character loop, the cut and the trim compute the sanitised value |
| VersionLabel.VersionIsAlwaysValid | internal/common/labels.go:58-93 | whatever stands in spec.image, the version label is one the API server accepts |
| VersionLabel.ValidIsKept | internal/common/labels.go:95-129 | a text that is a valid label value is not changed |
| VersionLabel.DigestIsShortened | internal/common/labels.go:64-78 | the label of an image with a digest is the first twelve characters after the algorithm |
| VersionLabel.TagIsKept | internal/common/labels.go:80-90 | the label of an image with a tag is the tag |
| VersionLabel.NoVersionIsLatest | internal/common/labels.go:80-92 | an image with neither is labelled latest, whatever port its registry has |
| Watches.BrokersForSecret | internal/controller/watches.go:116-144 | exactly the brokers that depend on the Secret through the lists that succeeded, each once |
| Watches.NoLostWakeup | internal/controller/watches.go:32-59 | any create, update or delete of a broker, user or Secret that changes what a broker's pass would refuse or render enqueues that broker; a change of its own rendered Secret if the controller reference carries its name |
| Watches.MisnamedOwnerIsMissed | internal/controller/watches.go:54 | the failing case: a rendered Secret made with the broker's uid under another name is rendered from and does not wake it |
| Watches.MoveWakesBoth | internal/controller/watches.go:88-114 | a user that moves wakes exactly the broker it leaves and the one it joins |
| Cluster.ConfigTextIsClosed | internal/builder/configmap.go:169-181 | the configuration built for a broker whose spec.config is accepted is closed, with TLS exactly when it names a Secret |
| Cluster.RefuseExactly | internal/controller/refusals.go:19-85 | a pass is refused exactly when the namespace is not granted, spec.config says anything off the allowlist, or under secret security a named TLS Secret is missing or without consent; and told the first of these |
| Cluster.CredentialMeans | internal/controller/users.go:120-170 | for any Secret: the values under the user's keys, by default username and password, or the first reason why there are none |
| PassModel.OnlyOwnDataIsReused | internal/controller/users.go:172-188 | the data a pass reuses is that of the rendered Secret exactly when the broker controls it, and otherwise nothing |
| PassModel.PasswordTellsRandom | internal/controller/users.go:46-50 | a generated password of the exporter determines all of the 32 random bytes it was made from |
| PassModel.InputsDistinct | internal/controller/users.go:79-91 | the inputs of a pass have distinct names when its users have |
| PassModel.RenderingIsStable | internal/controller/users.go:69-118 | rendering again from the stored result, with the users' credentials as they were, gives the same users and data, exporter password included, with no randomness |
| PassModel.UnreadableJudged | internal/controller/users.go:81-88 | a user without readable credentials is told exactly why |
| PassModel.NotJudged | internal/auth/render.go:90-92 | the renderer gives no verdict to a name that is not among its inputs |
| PassModel.AdmittedIsRendered | internal/controller/users.go:69-118 | a user is judged admitted only if the rendered data holds its line with a hash verifying the password just read |
| PassModel.UpdateSettles | internal/controller/mosquitto_controller.go:209-218 | every create and update leaves an object that needs no further update |
| PassModel.MadeOfData | internal/controller/mosquitto_controller.go:198-218 | a created or updated Secret or ConfigMap holds exactly the data wanted, the broker's labels, and all labels of other writers it does not name |
| PassModel.MadeOfWire | internal/controller/mosquitto_controller.go:254-259 | the same for the ports and the selector of a Service |
| PassModel.SettledData | internal/controller/mosquitto_controller.go:205-212 | a Secret or ConfigMap is left alone exactly when the broker controls it, its data is the data wanted and no label of the broker is missing |
| PassModel.SettledWire | internal/controller/mosquitto_controller.go:244-252 | the same for a Service |
| PassModel.SettledSet | internal/controller/mosquitto_controller.go:290-296 | a StatefulSet that is left alone has the replicas, labels and template entries of the broker |
| Standing.RenderedStatusIsTrue | internal/controller/users.go:224-233 | what a user is told is the username and a true verdict for the credentials read, or why there were none, for its present generation |
| Standing.AcceptedAreReady | internal/controller/mosquitto_controller.go:381-398 | the number of accepted users is the number of users reported Ready |
| Standing.StandingMeans | internal/controller/mosquitto_controller.go:157-184 | once all a pass wants stands, the five objects hold what they have to, and every user has been told the truth |
| Standing.ChangedConfigIsClosed | internal/controller/mosquitto_controller.go:186-219 | a ConfigMap that a pass with an accepted spec.config has changed holds a closed configuration and nothing else |
| Statuses.DoneSays | internal/controller/mosquitto_controller.go:303-335 | the status of a finished pass, field by field: Ready exactly when all replicas wanted are ready and some are, Progressing when some are, and the number of users |
| Statuses.ReadyIsTrue | internal/controller/mosquitto_controller.go:337-351 | a status that says Ready says so in phase and condition, for the present generation, of a broker whose objects all stand and whose pods are all ready |
| Pass.Operator.Send | internal/controller/mosquitto_controller.go:198-218 | a write fails, takes effect, or does both, and is logged with what it came to |
| Writes.SetComesLast | internal/controller/mosquitto_controller.go:157-162 | at the moment the StatefulSet is written every other object and every status is as the pass leaves it |
| Writes.BackedStands | internal/controller/mosquitto_controller.go:160-161 | if every Ready status written is backed, then whoever is newly Ready in the cluster is backed |
| Writes.StatusWasWritten | internal/controller/users.go:277-285 | a user's status that is another than before is one the pass wrote |
| Pass.Operator.ReconcileObject | internal/controller/mosquitto_controller.go:262-301 | create, leave alone or update; an object another controls is never touched; a settled one gets no write |
| Pass.Operator.ReadCredentials | internal/controller/users.go:120-170 | the input, or which of the three reasons refuses the user, for any Secret, the rendered one included |
| Pass.Operator.GatherInputs | internal/controller/users.go:79-91 | the loop over the users collects inputs, usernames and refusals |
| Pass.Operator.KeepOrMakePassword | internal/controller/users.go:39-51 | the exporter's password is kept when there is one and drawn otherwise |
| Pass.Operator.RenderUsers | internal/controller/users.go:69-118 | the rendering of the pass, and everyone it judges admitted is backed by its data |
| Pass.Operator.RefuseTlsSecret | internal/controller/refusals.go:55-85 | refused exactly when the Secret is missing or unlabelled under secret security |
| Pass.Operator.RefusePass | internal/controller/refusals.go:19-39 | the three refusals in order, which RefuseExactly says what they mean; a refused pass writes no object, only users' statuses |
| Pass.Operator.ReconcileAuthSecret | internal/controller/users.go:190-222 | the Secret is created, left alone or updated, never a foreign one, and keeps or lacks its consent label as before |
| Pass.Operator.ReconcileUsers | internal/controller/mosquitto_controller.go:168-173 | the Secret first and the statuses after it; the cluster is what these writes make of it, and a Ready status is written only when the stored Secret backs it |
| Pass.Operator.ReconcileRest | internal/controller/mosquitto_controller.go:174-183 | the cluster is what writes of ConfigMap, Services and StatefulSet, in this order, make of it |
| Pass.Operator.ReportUsers | internal/controller/users.go:235-249 | every user of the broker ends with the one verdict, and users that have it get no write |
| Pass.Operator.UpdateStatus | internal/controller/mosquitto_controller.go:303-335 | phase, counts and conditions from the live StatefulSet, and no write when they stand |
| Pass.Operator.PersistStatus | internal/controller/mosquitto_controller.go:353-369 | the status is stored or a call failed; an unchanged one is not written |
| Pass.Operator.TurnAway | internal/controller/mosquitto_controller.go:131-151 | a pass is turned away exactly by a refusal, unless a call fails; the status then says which, and after a failed call that the pass failed |
| Pass.Operator.EndPass | internal/controller/mosquitto_controller.go:137-155 | whatever of the status is written after a failure says Failed and not Ready, for the present generation; otherwise it is what the pods report |
| Pass.Operator.Reconcile | internal/controller/mosquitto_controller.go:112-155 | under any failures: the cluster becomes what the logged writes make of it, in fixed order; only the broker's own objects change, into contents that are stated, and none unless the broker exists and stays, its namespace is granted, spec.config only tunes and a TLS Secret consents; if one of these is missing the pass is turned away and says which; a ConfigMap it changes is closed; a user becomes Ready only when the stored Secret holds its line for the password just read; a status of the broker, in the log or in the end, says Failed, or that all stands and what the pods report; a finished pass leaves all objects as wanted and all users told the truth, and a world whose next pass writes nothing if and only if every user's credentials still hold, or, where nobody reads the Secret it writes, if and only if those who name it were told before what they are told after; a pass without faults or foreign objects finishes |
| Pass.FinishedIsIdle | internal/controller/mosquitto_controller.go:163-184 | what a finished pass leaves is idle if and only if every user's credentials still hold; where nobody reads the Secret the pass writes, if and only if everybody who names it was told already what is said afterwards |
| Rereading.HoldingRendersAgain | internal/controller/users.go:69-118 | users whose credentials hold, passwords changed included, render to what is stored, without randomness |
| Rereading.ToldTheSame | internal/controller/users.go:224-233 | and only such users are told the same by a pass over the same data |
| Rereading.HoldingByKeys | internal/controller/users.go:132-162 | by the keys a user reads: where nobody reads a rendered one, all credentials hold exactly when each user who names the Secret was told the same before it was written |
| Rereading.TwinsRenderAlike | internal/auth/render.go:104-154 | inputs that differ in passwords the stored hashes verify render to the same data, verdicts and count |
| Pass.DoneIsIdle | internal/controller/mosquitto_controller.go:163-184 | what a finished pass leaves is idle if the users' credentials are what they were |
| Writes.StatusesBacked | internal/controller/mosquitto_controller.go:160-161 | Ready statuses of a pass are backed by the Secret it stored |
| SelfReading.IdleOnlyIfSelfVerified | internal/controller/users.go:120-170 | over any hashing, a world in which an admitted user takes the passwd file of the rendered Secret for its password is idle only if the user's hash in that file verifies the file |
| SelfReading.FinishedStaysLone | internal/controller/users.go:42-51 | a pass that finishes for such a lone user leaves it admitted again, under the same username |
| SelfReading.LoneIdleExactly | internal/auth/hash.go:50-63 | over hash.go: after every finished pass for such a user there is rest if and only if the new hash verifies the new file |
| SelfReading.SelfReadingHappens | cmd/main.go:82 | it happens with secret security off, its default, over hash.go with a PBKDF2 that always returns keys of the length asked for: a pass finishes, and no finished pass is ever followed by an idle one |
| Delivery.IdleSays | internal/controller/mosquitto_controller.go:157-162 | the Secret of a finished pass holds exactly the users reported Ready, with their present passwords and grants, and the exporter |
| Delivery.ReadyUsersReachTheBroker | internal/reloader/run.go:15-24 | once the kubelet has published that Secret and a round has run in which nothing fails, a running broker has loaded exactly those users, whatever happened before short of a torn Sync, and however often the broker starts and stops meanwhile |
| Exporter.Collector.Observe | internal/exporter/collector.go:30-44 | a mapped message replaces what is held under its key, any other changes nothing |
| Exporter.Collector.SetLost | internal/exporter/collector.go:55-63 | the session and every value are dropped |
| Exporter.Collector.Collect | internal/exporter/collector.go:68-80 | the state, and exactly the samples held, once per key |
| Exporter.Collector.Replay | internal/exporter/collector.go:30-63 | any sequence of calls leaves the state the log theorems are about |
| Exporter.HeldIsTheLog | internal/exporter/collector.go:30-63 | over every run a key holds the sample of the latest mapped message of that key since the session was last lost, and nothing without one |
| Exporter.ScrapeIsTheLog | internal/exporter/collector.go:68-80 | over every run a scrape serves exactly the latest value of each series since the session was last lost, over the whole topic mapping |
| Exporter.OneSamplePerSeries | internal/exporter/collector.go:38-42 | a scrape never holds two samples of one series name and label |
| Exporter.KeysAreSeries | internal/exporter/mapping.go:74-119 | two messages share a key exactly when they set the same series, over the whole topic mapping |
| Exporter.TopicsHaveTheirSeries | internal/exporter/mapping.go:21-54 | apart from load averages no two topics set one series |
| Exporter.LoadsShareSeries | internal/exporter/mapping.go:90-105 | two load averages share a series exactly when they have the window and, up to slash and underscore, the topic in common |
| Exporter.CountersAreTheTotals | internal/exporter/mapping.go:25-54 | over the whole table a series is a counter exactly when it is named mosquitto_, its topic with underscores, _total |
| Exporter.LoadIsRead | internal/exporter/mapping.go:90-105 | a load average becomes the series of its topic with the window as label, if the payload is a number |
| Exporter.VersionIsRead | internal/exporter/mapping.go:81-88 | the version label is what follows the words mosquitto version |
| Exporter.NumberIsRead | internal/exporter/mapping.go:107-118 | every other topic of the table is the number in its payload, that of uptime in front of the word seconds |
| Exporter.ValuesWithoutSession | internal/exporter/collector.go:46-63 | values are held without a session exactly when a mapped message and no Connected came since the last Lost |
| Exporter.MessageBeforeSession | internal/exporter/collector.go:30-53 | the failing case: a message observed before Connected |

## Left out

- PBKDF2, SHA-256, X.509 pairs, UTF-8 decoding and float parsing are parameters; their own correctness is not modelled.
- Strings are sequences of code points. Lower-casing is modelled for the ASCII usernames that pass the allowlist, which is where it is applied.
- The wording of verdicts, conditions, log lines and configuration comments, and condition timestamps. Comments of `mosquitto.conf` are arbitrary one-line texts.
- Renderer.Render: with duplicate object names or principal names it promises only an age order and the result for that order, because ties then leave the outcome open; names are unique in a namespace.
- Reloader.Process.WriteAtomic: assumes that removing the temporary file succeeds; a left-over one would stay beside the copies under its hidden name. Setting its mode is no operation on contents.
- Reloader.Process.Signal: the broker loads all its copies in one step; scanning `/proc` is reduced to whether a broker is running and whether sending fails.
- Reloader.Process.PollAll: the endless loop is every finite run of polls.
- ReloaderTheorems.RoundConverges: the temporary names of the round are free, and the TLS pair it reads matches.
- Restarts.RestartsForgetExactly: a death leaves its temporary file behind; the files that count are those the reloader copies.
- MergeHistory.TemplateAfterPass: other writers change template keys but not the two applied-keys annotations, and keys of the spec are not empty and hold no comma, as the API server requires. Its first two clauses read an absent key as empty; NamedKeyStands says when a named key is absent.
- StatefulSets.StatefulSet.Build: pod spec, hashes and volume claim templates are opaque values; pod, Service and affinity construction is not modelled.
- Standing.StandingMeans: labels, ports, selectors and the spec of the StatefulSet are what the builders made of the broker; how they make them is modelled for the configuration only.
- Watches.NoLostWakeup: assumes that an update which keeps the generation keeps the spec, and for the rendered Secret a controller reference with the broker's name beside its uid. Failed lists lose wake-ups in the code too; BrokersForSecret says which.
- Pass.Operator.Reconcile: nobody else writes while a pass runs, the users and Secrets it reads are current, and the only stale read is that of the StatefulSet in the status step. A credentials Secret that disappears between its two reads is not modelled.
- Pass.Operator.UpdateStatus: the user count does not wrap at 32 bits.
- Delivery.ReadyUsersReachTheBroker: the mount shows the Secret the pass stored, and the reloader copies passwd and acl, its default.
- Exporter.KeysAreSeries: help texts, and Prometheus' own checks across series of one name.
- Kubernetes client, informers, work queues, retries and API-server defaulting; the cache transform for Secrets and the worker count.
- The exporter's MQTT session, HTTP serving, command-line flags and process wiring.
