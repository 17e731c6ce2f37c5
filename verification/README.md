# DNS++ broker overlay: a verified model

DNS++ is a tree of publish/subscribe brokers. A client subscribes to a service name with
its coordinates, or publishes a replica of a service with the replica's coordinates; brokers
forward publications up to their parents and down to interested children, and deliver to a
local subscriber only what is strictly nearer than everything it was sent before. Sliding
windows limit how often a service is forwarded or delivered. In encrypted operation names
are grouped by a hash and compared under a modified Paillier encryption.

The project models this logic and proves what it keeps, in every run and every tree:

- `BrokerModel.dfy` says what each message handler does to a broker's state and what it
  sends; `Broker.dfy` is the broker object, whose handlers update maps, queues and counters
  in place, proved to do exactly that.
- `BrokerRuns.dfy`, `BrakeRate.dfy`, `ClosestFilter.dfy`, `Expiry.dfy`, `QuadrantFilter.dfy`,
  `Regions.dfy` and `Routing.dfy` state what holds in every run of one broker.
- `Forwarding.dfy`, `Delivery.dfy` and `Messages.dfy` state what every message does and sends in
  terms of messages, configuration and what was seen before, without the model's own functions.
- `BrokerTree.dfy` and `Overlay.dfy` set up a tree of brokers with messages on their links
  that arrive in any order or are lost; `OverlayPublish.dfy`, `OverlayRuns.dfy`,
  `OverlayRouting.dfy` and `RegionReports.dfy` state what holds in every run of the tree, and
  `Suppression.dfy` shows a run in which one service keeps another from its subscriber.
- `NumberTheory.dfy`, `PaillierScheme.dfy`, `BlindedMatch.dfy` and `PaillierKeys.dfy` build
  the encryption from divisibility up to the correctness of the broker's comparison.
- `Encryption.dfy` and `EncryptedOverlay.dfy` show that encrypted operation simulates
  plaintext operation on digests, for one broker and for the tree; `SchemeWitness.dfy`
  shows that their assumptions can be met.
- `TlvWire.dfy` and `TlvMessages.dfy` are the wire format, its parser and its builder;
  `Datagrams.dfy` shows that a broker's messages pass through them unchanged.
- `Dynamics.dfy` and `Wilcoxon.dfy` are the dynamics benchmark's shadow of broker state and
  the signed-rank statistic.

`dafny verify dfyconfig.toml` checks everything.

Conventions. A broker's `who` is the result of findChildByAddr for the sender's address; it
is a parameter because the hash map's order decides among children that share an address.
Time is a parameter. Distances are real numbers computed by an uninterpreted square root and
cosine. Probabilistic draws are arbitrary values of their range. A message on a link that is
marked is the one publication a theorem follows; any client publication may be the marked one.

## Model

| member | source | states |
|---|---|---|
| OverlayPublish.PublicationSpreadsOnce | src/broker/broker.cpp:409-491 | in every tree and every run, with loss and reordering and whatever brakes and quadrant filters do, a client publication is handled at most once by each broker, no link carries it twice or in both directions, and fewer messages are sent than there are brokers |
| OverlayPublish.AlwaysSound | src/broker/broker.cpp:582-589 | in every run, registered children are tree children at their own addresses, links carry only what brokers send there, at most one packet of a link is the followed publication, and links still open have untouched, disjoint far sides |
| OverlayPublish.GoesOnward | src/broker/broker.cpp:461-491 | a publication leaves a broker only over its own links and never over the link it came from: the sender is recognised by its address, or is no registered child and so no target |
| OverlayPublish.LookupIsSender | src/broker/broker.cpp:582-589 | findChildByAddr returns the child that sent the message if its HELLO was handled, and the empty string otherwise |
| BrokerTree.Pass | src/broker/broker.cpp:443-491 | one broker passing a message on, not back, keeps every open link's far side unhandled and apart from the others, and its receiver had not handled the message |
| BrokerTree.SpreadIsBounded | src/broker/broker.cpp:443-491 | such a spread handles at each broker at most once and sends at most one message fewer than there are brokers |
| OverlayRuns.NetRunsAreLocal | src/broker/broker.cpp:698-754 | each broker of the tree goes through a run of its own, so what holds in every run of one broker holds of every broker in every tree |
| OverlayRuns.DeliveriesLeaveTheTree | src/broker/broker.cpp:524-543 | in every run no delivery is addressed to a broker, except acknowledgements of HELLO, which brokers ignore |
| OverlayRouting.SubscriptionsReachAncestors | src/broker/broker.cpp:319-335 | over reliable ordered links with HELLO first: whenever no SUBSCRIBE for the key is in flight on the path above a broker with a subscriber for it, every broker above lists the child on that path as active for the key, expiry included |
| OverlayRouting.AlwaysRouted | src/broker/broker.cpp:698-713 | over reliable ordered links every announced key is active above or its SUBSCRIBE is still in flight, and every child is registered or its HELLO is next on its link |
| OverlayRouting.RoutedArrival | src/broker/broker.cpp:319-335 | handling the first message of a child's link keeps that: a HELLO registers the child, a SUBSCRIBE makes exactly it active |
| OverlayRouting.BrokersAnnounceOnce | src/broker/broker.cpp:386-394 | over any links a broker announces a key upwards exactly once if it has noted it, and otherwise never |
| Routing.AnnouncedOnce | src/broker/broker.cpp:325-333 | in every run of a broker the SUBSCRIBE messages sent upwards for a key number one if the key is in ot_parent_ and zero otherwise, expiry included |
| Routing.WantedIsAnnounced | src/broker/broker.cpp:386-394 | in every run a broker with a parent has announced every key with a subscriber or an active child |
| Routing.RoutingStep | src/broker/broker.cpp:306-395 | no step of a broker forgets a child, an active child or an announcement, and a new announcement is sent in exactly one message |
| Regions.RegionIsLeast | src/broker/broker.cpp:295-301 | in every reachable state the region is the least rectangle of the broker's own point, the children's regions and exactly the subscriber coordinates accepted since it was last recomputed |
| Regions.RegionHoldsExactly | src/broker/broker.cpp:295-301 | in every reachable state a point is inside exactly when on each of the four sides the own point, a child's region or a subscriber since the last recomputation lies as far out |
| Regions.ClientsAreForgotten | src/broker/broker.cpp:558-623 | after a HELLO or a known child's REGION_UPDATE a point is inside exactly when on each of the four sides the own point or a child's record, read off the state before and the message, lies as far out |
| Regions.ForgottenClients | src/broker/broker.cpp:295-301 | concrete runs in which a subscriber's point falls out of the region, one ending in HELLO and one in REGION_UPDATE |
| Regions.RegionAlwaysCovers | src/broker/broker.cpp:295-301 | in every reachable state the region contains the broker's own point and every registered child's region |
| Regions.ChildlessRegionIsLeast | src/broker/broker.cpp:357-367 | in every run a broker that never had a child has as region the least rectangle holding its own point and every subscriber coordinate, expired or not |
| RegionReports.RecordIsLastReport | src/broker/broker.cpp:596-623 | over reliable ordered links, for every broker with a parent and no HELLO or REGION_UPDATE in flight: the parent's record is the broker's region as of its last report, right exactly when no child said HELLO since or the hull after the last such HELLO is the reported region, and wrong only if a child said HELLO since |
| RegionReports.RegionByHelloOrReport | src/broker/broker.cpp:558-580 | in every run a broker's region is the hull as of the last HELLO since its last report, and the last reported region if there was none |
| RegionReports.LeafRegionIsRecorded | src/broker/broker.cpp:596-623 | over reliable ordered links, whenever a leaf broker has no HELLO or REGION_UPDATE in flight, its parent's record equals its region, which is the least rectangle of its point and every subscriber coordinate it ever had |
| RegionReports.AlwaysInStep | src/broker/broker.cpp:605-623 | over reliable ordered links, in every run the parent's record, brought up to date by what is on the link, is the region as of the last report |
| RegionReports.StepReport | src/broker/broker.cpp:363-367 | a step reports the new region upwards exactly when it changes the region and is not a HELLO |
| RegionReports.HelloIsNotReported | src/broker/broker.cpp:558-580 | in every run a child's HELLO recomputes the region and sends nothing upwards: the last report stays and is right afterwards exactly when it is the hull with the new child |
| RegionReports.StaleRecord | src/broker/broker.cpp:558-580 | a concrete run of a chain of three brokers that ends with nothing in flight and a parent's record different from the child's region |
| BrokerModel.HullUnique | src/broker/broker.cpp:295-301 | the least rectangle around a point and the children's regions is unique, so the visiting order cannot matter |
| BrokerModel.HullAdd | src/broker/broker.cpp:298-300 | merging one more child's region into the least rectangle gives the least rectangle with that child |
| Geo.MergeIsLeast | src/utils/geo.h:39-44 | a rectangle covers a merge exactly when it covers both parts |
| Geo.DistanceSymmetric | src/utils/geo.h:16-21 | geoDistance is symmetric, whatever square root and cosine are |
| Geo.DistanceIsHypotenuse | src/utils/geo.h:16-21 | with the nonnegative square root, geoDistance squared is the squared way along the meridian plus the squared way along the parallel shortened by the cosine of the middle latitude |
| Geo.QuadrantCentres | src/utils/geo.h:47-67 | in a region of positive size each centre lies in its own quadrant, as far from the middle lines as from the outer sides |
| Geo.QuadrantIsNearest | src/utils/geo.h:47-67 | a place's quadrant is the quarter whose outer sides it is nearest to, north and east on ties, and its centre is halfway between those sides and the middle lines |
| ClosestFilter.SubscriberHasTheNearest | src/broker/broker.cpp:493-543 | when no publication on the key was refused since the subscriber joined, its stored distance is the minimum over all publications on the key since then and the query answer, and the last message sent is the first to attain it |
| ClosestFilter.PlaintextSubscriberHasTheNearest | src/broker/broker.cpp:502-543 | with or without a key: a subscriber whose service was not braked and whose publications carried no blinded value since it joined has the nearest of all of them, as above, and no comparison was made for them; at a broker without a key blinded values make no difference |
| ClosestFilter.UnbrakedRefusesNothing | src/broker/broker.cpp:502-521 | where the match gate was open for every publication on the key since the subscriber joined and none was braked, none was refused |
| ClosestFilter.ZeroCounterNeverBraked | src/broker/broker.cpp:502-507 | while the local-brake counter is zero no publication was braked for any subscriber of any key |
| Encryption.EncryptedSubscriberHasTheNearest | src/broker/broker.cpp:513-532 | the same holds of a subscriber of an encrypted broker with honest clients whose digest was not braked since it joined; the gate is always open there |
| ClosestFilter.SubscriberGetsRunningMinima | src/broker/broker.cpp:509-543 | in every run every subscriber's stored distance is the least of what reached its delivery loop since it subscribed, its query answer first, and what it was sent are exactly the strict running minima, in order |
| ClosestFilter.RecordsAreRunningMinima | src/broker/broker.cpp:524-532 | the sent positions are exactly those strictly nearer than the maximum and than everything before them |
| ClosestFilter.OutIsTheHistories | src/broker/broker.cpp:524-543 | everything a publication puts out for clients is the concatenation of the subscribers' own sends, in group order |
| ClosestFilter.GroupStep | src/broker/broker.cpp:354-355 | all that can happen to a service's group in a step: erasure, one more subscriber, a delivery, or nothing |
| BrokerRuns.CacheIsRecentHistory | src/broker/broker.cpp:436-441 | in every run the cache of a key is the last ten publications on it since it last expired, braked or not |
| BrokerRuns.QueryGetsNearestRecent | src/broker/broker.cpp:369-384 | in every run a query subscription is sent the nearest of the last ten publications, the earliest on ties, and starts with that distance; nothing if none is below the maximum |
| BrokerRuns.NearestIsBest | src/broker/broker.cpp:372-377 | the scan returns none exactly when no publication is below the maximum, otherwise a nearest one with none equally near before it |
| BrokerRuns.CountersAlwaysAgree | src/broker/broker.cpp:400-461 | over every run of a broker with a parent forward_up + braked_up is the number of named publications not from the parent; match_hits <= match_calls; match_calls + braked_local <= pub_received |
| BrakeRate.BrakeBoundsRate | src/broker/broker.cpp:274-293 | for every clock that never goes back, between erasures of a key's windows at most brake_limit admissions per service, quadrant and direction lie in any closed interval of brake_window seconds |
| BrakeRate.AdmitsByFullCount | src/broker/broker.cpp:280-291 | the pruned queue admits exactly when fewer than the limit of all admissions ever made are recent |
| BrakeRate.AdmitsByRecentCount | src/broker/broker.cpp:274-293 | over every run with a clock that never goes back a broker's window admits exactly when fewer than brake_limit of its admissions since it was last erased lie in the last brake_window seconds |
| BrakeRate.WindowIsCalls | src/broker/broker.cpp:274-293 | in every run a broker's window is the queue its consultations lead to, and its admissions are theirs |
| BrakeRate.RateBound | src/broker/broker.cpp:280-292 | any sequence of calls at nondecreasing times admits at most the limit in every closed interval of the window |
| BrakeRate.AdmissionIsVisible | src/broker/broker.cpp:446-461 | a consulted upward brake lets the forward out exactly when it admits; a consulted local brake that refuses lets no delivery out |
| Expiry.GroupExpires | src/broker/broker.cpp:682-696 | in every run a cleanup erases a group exactly when its last client subscription or heartbeat is more than 15 seconds ago, and with it the key's cache and brake windows |
| Expiry.ActivityIsLastTouch | src/broker/broker.cpp:551-556 | in every run a key's activity time is that of its last client subscription or heartbeat since its group was last erased, and every group has one |
| Expiry.HeartbeatsDoNotRenewDigests | src/broker/broker.cpp:551-556 | in every run whose heartbeats carry names that are not the digest, a digest's group is erased by a cleanup exactly when its last subscription is more than 15 seconds ago, whatever heartbeats its clients sent |
| Expiry.LapsedWhileBeating | src/broker/broker.cpp:551-556 | a client subscribed at 0 with a heartbeat at 14 is gone after a cleanup at 16 in encrypted operation and still there in plaintext operation |
| QuadrantFilter.KeptIsLowestConsidered | src/broker/broker.cpp:471-477 | in every run the distance kept for a child and quadrant is the least distance ever considered there, on any service, measured halfway between the region's middle lines and the sides the publication is nearer to; neither HELLO nor a new region nor expiry resets it |
| QuadrantFilter.ForwardsAreRunningMinima | src/broker/broker.cpp:463-491 | in every run a publication is forwarded to a child exactly when the child is active for it and not its sender, and it is strictly nearer to the centre of the quarter it is nearest to than the maximum and than everything considered for that child and quarter before, on any service |
| Forwarding.UpwardExactly | src/broker/broker.cpp:444-461 | over every run with a clock that never goes back: a publication that did not come from the parent is sent up once, with its service, place, blinded value and payload as received, unless brake_scope covers upward and at least brake_limit publications of its service from its quarter were sent up in the last brake_window seconds; exactly then it is counted as braked |
| Forwarding.UpwardUnlessFull | src/broker/broker.cpp:280-291 | in every state, whatever the clock does, the same with the window said as a queue that still holds the limit after the too old entries at its front are popped |
| Forwarding.QuartersShareWindows | src/broker/broker.cpp:267-272 | publications of a service share a brake window exactly when their latitudes agree in being at least zero and their longitudes do |
| Forwarding.DownwardExactly | src/broker/broker.cpp:463-491 | in every run a publication goes to a child exactly when the child asked for the service, is not the sender, and the publication is strictly nearer to the centre of the nearest quarter of the child's region than the maximum and than everything considered there before; it goes with service, place, blinded value and payload as received, and the counter grows by the number sent |
| Delivery.DeliversExactly | src/broker/broker.cpp:493-545 | over every run with a clock that never goes back: which publications are braked locally, compared, accepted and delivered, to exactly the subscribers they are strictly nearer to, what those then store, and what each counter gains; a publication without a blinded value is delivered without comparison |
| Delivery.DeliversUnlessFull | src/broker/broker.cpp:493-545 | in every state, whatever the clock does, the same with the window said as a queue |
| Messages.ClientSubscribes | src/broker/broker.cpp:337-395 | a client's subscription adds one subscriber with its address, place and both blinded values or none; the parent hears of the region exactly when the place lay outside it and of the service exactly when it had not been announced; without the query flag the client is sent nothing |
| Messages.ChildSubscribed | src/broker/broker.cpp:319-336 | a child's subscription is noted for the child with the sender's address and passed on once; from an unknown address it is only counted |
| Messages.Greeted | src/broker/broker.cpp:558-580 | a HELLO with name and coordinates registers the child and is acknowledged to its sender; any other does nothing |
| Messages.RegionReplaced | src/broker/broker.cpp:605-623 | a known child's REGION_UPDATE replaces its record and reports a changed region; any other does nothing |
| Messages.NothingSent | src/broker/broker.cpp:736-745 | heartbeats and cleanups send nothing, acknowledgements and other messages do nothing, nameless subscriptions and publications are only counted |
| Messages.CountersAreTotals | src/broker/broker.cpp:306-545 | in every run forward_up, forward_down, delivered_local, pub_received and sub_received are the totals of what was sent for publications and of what came |
| QuadrantFilter.QuadsNeverGrow | src/broker/broker.cpp:474-477 | over every continuation of every run no child is forgotten and no distance kept grows |
| QuadrantFilter.OtherServicesAreSuppressed | src/broker/broker.h:42 | once a publication was considered for a child, no later one from the same place on any service is forwarded to it while the child's record shows the same region, whatever happened in between |
| Suppression.OneServiceSuppressesAnother | src/broker/broker.cpp:463-491 | for every broker, place and pair of services: once a child said HELLO and announced both, a publication on the second is forwarded to it, but not after one on the first from the same place |
| Suppression.SuppressedAcrossTheTree | src/broker/broker.h:42 | a run of two brokers over reliable ordered links in which nothing is braked or left in flight, and a subscriber stays at the maximal distance although its service was published: a publication on another service went first |
| PaillierScheme.DecryptEncrypt | src/crypto/Paillier.cpp:100-115 | for all messages and all randomness, decrypting an encryption gives the message modulo n exactly when the randomness is coprime to n; otherwise L's assertion fails |
| PaillierScheme.DecryptAdd | src/crypto/Paillier.cpp:111-119 | decrypting a sum of two encryptions gives the sum of the messages modulo n exactly when both random values are coprime to n |
| PaillierScheme.AddIsEncryptSum | src/crypto/Paillier.cpp:100-119 | adding two encryptions is the encryption of the sum under the product of the random values |
| PaillierScheme.RandomnessVanishes | src/crypto/Paillier.cpp:100-115 | r^(n*lambda) = 1 modulo n^2 for r coprime to n = pq, from Fermat for p and q, the lift to p^2 and q^2, and coprimality of the squares |
| PaillierScheme.LiftToSquare | src/crypto/Paillier.cpp:100-109 | a number that is 1 modulo p has n-th powers that are 1 modulo p^2 when p divides n |
| PaillierScheme.SharedFactorFails | src/crypto/Paillier.cpp:100-115 | the random value p, which the drawing loop allows, makes decryption fail |
| PaillierScheme.Decode | src/crypto/Paillier.cpp:88-98 | L applied to any representative of 1 + t*n is t modulo n, and its congruence assertion holds |
| NumberTheory.Fermat | src/crypto/Paillier.cpp:62-64 | r^(p-1) = 1 modulo a prime p that does not divide r, by the binomial theorem |
| NumberTheory.OnePlusPow | src/crypto/Paillier.cpp:66-69 | (1 + k*n)^e = 1 + e*k*n modulo n^2 |
| NumberTheory.LcmIsLeast | src/crypto/Paillier.cpp:64 | a number is a multiple of both arguments exactly when it is a multiple of their lcm |
| BlindedMatch.MatchIsEquality | src/broker/broker.cpp:228-255 | with 2*r_m*2^64 < n, executeMatch on honest blinded values is true exactly when the two hashes are equal, for all 64-bit hashes, draws and coprime randomness; with r_m = 1 it is true exactly one place off |
| BlindedMatch.MatchDecodes | src/crypto/Paillier.cpp:121-147 | multiplying a blinded notification and a blinded subscription cancels e_m + d_m = n and decodes r_m*(x + m) + r modulo n |
| BlindedMatch.Thresholds | src/broker/broker.cpp:244-251 | the two n/2 comparisons hold together exactly when the difference of the hashes is 0 (or -1 when r_m = 1) |
| BlindedMatch.MatchTests | src/broker/broker.cpp:228-255 | for any values, honest or not: a match needs all three, the first difference strictly below half of n rounded down and the second strictly above it |
| BlindedMatch.TruncatedDivision | src/broker/broker.cpp:240-249 | quotient and remainder of the big integers: they make up the dividend, and the remainder is smaller than the divisor and has the dividend's sign |
| PaillierKeys.NamesMatchByHash | src/crypto/Heps.cpp:62-99 | with a key of at least 1058 bits and r_m >= 2 the broker accepts a publication for a subscription exactly when the names' hashes agree |
| PaillierKeys.GeneratedKeyHasRoom | src/crypto/Paillier.cpp:79-85 | a modulus of at least 1058 bits and r_m below 2^992 satisfy 2*r_m*2^64 < n |
| PaillierKeys.LambdaInvertible | src/crypto/Paillier.cpp:62-74 | for primes from the forced-bits range, equal or not, lambda is coprime to n |
| PaillierKeys.LambdaDecodes | src/crypto/Paillier.cpp:68-74 | L(g^lambda) is lambda modulo n and is invertible |
| PaillierKeys.ProductSize | src/crypto/Paillier.cpp:45-51 | two primes with their two top bits set have a product of exactly twice their length |
| PaillierKeys.NextPrime | src/crypto/Paillier.cpp:32 | the least prime above the argument |
| PaillierKeys.GenPrime | src/crypto/Paillier.cpp:26-41 | on success a prime of exactly the size with both top bits set; it fails only if some number it can draw has no prime between itself and 2^bits |
| PaillierKeys.Invert | src/crypto/Paillier.cpp:72-74 | inversion succeeds exactly when the argument is coprime to the modulus, and then inverts |
| PaillierKeys.Paillier.SetParams | src/crypto/Paillier.cpp:149-160 | all fields replaced, n^2 recomputed, p and q kept |
| PaillierKeys.Paillier.Decrypt | src/crypto/Paillier.cpp:111-115 | the decryption function of the fields |
| PaillierKeys.Paillier.Add | src/crypto/Paillier.cpp:117-119 | the addition function of the fields |
| PaillierKeys.Paillier.BlindNotification | src/crypto/Paillier.cpp:121-132 | the notification function at a draw below r_m with zero replaced by one |
| PaillierKeys.Paillier.Match | src/crypto/Paillier.cpp:143-147 | the match function of the fields |
| PaillierKeys.Heps.BlindNotification | src/crypto/Heps.cpp:81-85 | the notification value of the name's hash |
| SchemeWitness.SchemeExists | src/crypto/Paillier.cpp:43-86 | there is a key with room for every difference of two hashes, a scheme around it and a broker configured with it, so the theorems on encrypted runs are about something |
| PaillierKeys.Paillier.KeyGen | src/crypto/Paillier.cpp:43-86 | an even size never resamples, an odd size never succeeds; on success n has the size, lambda is coprime to n, mu inverts it and e_m + d_m = n, and for p != q the fields are a key built from p and q |
| PaillierKeys.Paillier.Derive | src/crypto/Paillier.cpp:60-86 | the fields that follow from p, q and n: the inversion cannot fail, mu inverts lambda and e_m + d_m = n, whether or not p = q |
| PaillierKeys.Paillier.Encrypt | src/crypto/Paillier.cpp:100-109 | modulo n^2, the encryption of the message's residue at a random value between 1 and n - 1, negative messages included |
| PaillierKeys.Paillier.BlindSubscription | src/crypto/Paillier.cpp:134-141 | the subscription function at the argument's residue modulo n^2 |
| PaillierKeys.Heps.BlindSubscription | src/crypto/Heps.cpp:87-99 | the blinded pair for v and v + 1, where v is the name's hash, for every modulus, also one below the hash |
| Encryption.EncryptedRunIsPlaintextRun | src/broker/broker.cpp:421-434 | a run of honest encrypted messages, expiry included and heartbeats left out, leads to the state of the plaintext run on digests, with the same brake windows, forwards and deliveries at every step |
| Encryption.SameStep | src/broker/broker.cpp:306-545 | erasing blinded values commutes with every handler on honest messages |
| Encryption.SameKey | src/broker/broker.cpp:429-434 | a client's name is hashed by the first broker and a forwarded one never again |
| Encryption.GateOpens | src/broker/broker.cpp:513-521 | grouping and blinding use the same hash, so the match gate passes every publication on the group's key, colliding names included |
| Encryption.GateNeverRejects | src/broker/broker.cpp:254-255 | in such runs every comparison made is a hit |
| EncryptedOverlay.EncryptedTreeIsPlaintextTree | src/broker/broker.cpp:429-434 | in any tree and over any links, the encrypted run with honest clients is the plaintext run on digests: every state and every message in flight are the plaintext ones with the blinded values erased |
| EncryptedOverlay.EncryptedTreeDeliversAlike | src/broker/broker.cpp:513-543 | after any run of the encrypted tree with honest clients and for every next step, the broker that moves sends the same messages to its parent, its children and the same client addresses as in the plaintext run on digests, blinded values erased |
| EncryptedOverlay.StepPassesOn | src/broker/broker.cpp:448-487 | what a broker passes on carries the digest with the value blinded for it |
| TlvWire.AcceptsExactlyEncodings | src/protocol/TlvMessage.cpp:8-41 | a byte string is accepted exactly when some encoding is a prefix of it, and the message is unique |
| TlvWire.ParsesExactlyLayout | src/protocol/TlvMessage.cpp:8-41 | a buffer parses to a message exactly when the message is laid out in it byte by byte: type, count and payload length in the header with the first byte weighing most, each field's type, length and value behind the last, then the payload |
| TlvWire.BuildIsLaidOut | src/protocol/TlvMessage.cpp:165-210 | what build produces is the message so laid out, with count and payload length wrapped to their widths, and nothing behind it |
| TlvWire.WordsArePositional | src/protocol/TlvMessage.cpp:63-72 | word i of a field is the number its bytes 4i to 4i + 3 stand for, the first weighing most |
| TlvWire.BuildParseRoundTrip | src/protocol/TlvMessage.cpp:165-210 | parsing what build produced gives type, fields in order and payload back exactly when there are fewer than 65536 fields and fewer than 2^32 payload bytes |
| TlvWire.EncodeParsed | src/protocol/TlvMessage.cpp:8-41 | an accepted buffer begins with the encoding of what it parses to |
| TlvWire.ParseEncoded | src/protocol/TlvMessage.cpp:8-41 | a buffer that begins with an encoding parses to the encoded message, trailing bytes ignored |
| TlvWire.FirstTlvIsFirst | src/protocol/TlvMessage.cpp:43-61 | the value found belongs to a field of the type with none of the type before it; none is found exactly when there is none |
| TlvWire.FieldRoundTrip | src/protocol/TlvMessage.cpp:131-143 | coordinates, flags and regions in the first field of their type come back word for word |
| TlvMessages.RoundTrip | src/protocol/TlvMessage.cpp:118-210 | building with any fields and payload that fit, then parsing with any trailing bytes, gives the same message |
| TlvMessages.TlvMessage.constructor | src/protocol/TlvMessage.cpp:8-41 | the cursor loop, reading inside the buffer only, accepts exactly the buffers with a message laid out in them, and type, count and payload length are the header's bytes in network order |
| TlvMessages.TlvMessage.FindTlv | src/protocol/TlvMessage.cpp:43-61 | the first field of the type |
| TlvMessages.FindField | src/protocol/TlvMessage.cpp:46-59 | the cursor loop finds the first field of the type among the given number |
| TlvMessages.CountFields | src/protocol/TlvMessage.cpp:176-185 | counting by walking the bytes gives the number of fields modulo 65536 |
| TlvMessages.TlvMessage.GetCoordinates | src/protocol/TlvMessage.cpp:63-72 | the numbers at bytes 0 and 4 of the first field of type 1, if it has eight bytes |
| TlvMessages.TlvMessage.GetFlags | src/protocol/TlvMessage.cpp:74-82 | the number at byte 0 of the first field of type 2, if it has four bytes |
| TlvMessages.TlvMessage.GetRegion | src/protocol/TlvMessage.cpp:236-253 | the numbers at bytes 0, 4, 8 and 12 of the first field of type 5, if it has sixteen bytes |
| TlvMessages.TlvMessage.GetServiceName | src/protocol/TlvMessage.cpp:84-91 | the bytes of the first field of type 3 |
| TlvMessages.TlvMessage.GetPayload | src/protocol/TlvMessage.cpp:103-106 | the payload, or the null pointer when it is empty |
| TlvMessages.TlvMessageBuilder.AddTlv | src/protocol/TlvMessage.cpp:118-129 | one more field at the end |
| TlvMessages.TlvMessageBuilder.AddCoordinates | src/protocol/TlvMessage.cpp:131-138 | one more field, of type 1, whose bytes stand for latitude and longitude in network order |
| TlvMessages.TlvMessageBuilder.AddFlags | src/protocol/TlvMessage.cpp:140-143 | one more field, of type 2, whose bytes stand for the flags in network order |
| TlvMessages.TlvMessageBuilder.AddRegion | src/protocol/TlvMessage.cpp:222-234 | one more field, of type 5, whose bytes stand for the four sides in network order |
| TlvMessages.TlvMessageBuilder.AddBytes | src/protocol/TlvMessage.cpp:145-149 | one more field holding the bytes the 16-bit cast of the length leaves |
| TlvMessages.TlvMessageBuilder.Build | src/protocol/TlvMessage.cpp:165-210 | header, fields and payload laid out byte by byte in network order, with count and payload length wrapped to their widths, and nothing behind them |
| Datagrams.SentIsReceived | src/broker/broker.cpp:450-458 | every message that can be written without loss arrives: the parser accepts the builder's bytes, whatever trails them, and the getters read kind, name, place, flag bits, region, blinded values and payload as they were |
| Datagrams.PassedOnArrives | src/broker/broker.cpp:480-487 | a publication read from any accepted datagram and passed on arrives at the next broker with its service, place, flag, blinded value and payload |
| Datagrams.PassedOnFields | src/broker/broker.cpp:450-458 | the fields of a publication passed on: the service's bytes, the two coordinate patterns, the flag word 2 towards the parent and 4 towards a child, the blinded value's text if it had one, and no others |
| Datagrams.TypeBytes | src/protocol/TlvMessage.h:15-25 | the first two bytes of a written message are its type's number |
| BrokerObject.DnsMulticastBroker.constructor | src/broker/broker.h:84-122 | the initial state |
| BrokerObject.DnsMulticastBroker.HandleSubscribe | src/broker/broker.cpp:306-395 | the state and the messages HandleSubscribe of the model says |
| BrokerObject.DnsMulticastBroker.HandlePublish | src/broker/broker.cpp:400-545 | the state and the messages HandlePublish of the model says |
| BrokerObject.DnsMulticastBroker.ForwardUp | src/broker/broker.cpp:443-461 | forwarded once unless from the parent or braked; counters and windows accordingly |
| BrokerObject.DnsMulticastBroker.ForwardDown | src/broker/broker.cpp:463-491 | exactly the active children other than the sender that the publication is strictly nearer to, in any order of visiting |
| BrokerObject.DnsMulticastBroker.DeliverLocal | src/broker/broker.cpp:493-544 | brake, match gate and delivery in this order |
| BrokerObject.DeliverLoop | src/broker/broker.cpp:524-532 | the delivery loop sends to and updates exactly the subscribers it is strictly nearer to |
| BrokerObject.DnsMulticastBroker.BrakeAllows | src/broker/broker.cpp:274-293 | admits exactly when fewer than the limit of unexpired entries remain; the window of one service, quadrant and direction changes |
| BrokerObject.DnsMulticastBroker.ExecuteMatch | src/broker/broker.cpp:228-255 | the comparison, with calls and hits counted |
| BrokerObject.DnsMulticastBroker.UpdateMyRegion | src/broker/broker.cpp:295-301 | the least rectangle around the broker's point and the children, in any order of visiting |
| BrokerObject.DnsMulticastBroker.FindChildByAddr | src/broker/broker.cpp:582-589 | a child with the address, or the empty string when there is none |
| BrokerObject.DnsMulticastBroker.Nearest | src/broker/broker.cpp:372-377 | the scan of the cache |
| BrokerObject.DnsMulticastBroker.StorePublication | src/broker/broker.cpp:436-441 | appended, the oldest dropped beyond ten |
| BrokerObject.DnsMulticastBroker.HandleHello | src/broker/broker.cpp:558-580 | the child registered at the address it wrote from, distances kept, region recomputed, acknowledged |
| BrokerObject.DnsMulticastBroker.HandleRegionUpdate | src/broker/broker.cpp:605-623 | a known child's record replaced, region recomputed, the parent told exactly when it changed |
| BrokerObject.DnsMulticastBroker.HandleHeartbeat | src/broker/broker.cpp:551-556 | the raw name's activity time |
| BrokerObject.DnsMulticastBroker.CleanupExpired | src/broker/broker.cpp:682-696 | exactly the expired services erased from subscribers, activity times, cache and windows |
| BrokerObject.CleanupLoop | src/broker/broker.cpp:684-695 | erasing while iterating, in any order, erases exactly the expired services and inserts the epoch for names never seen active |
| BrokerObject.DnsMulticastBroker.Dispatch | src/broker/broker.cpp:737-746 | the handler of the message's kind |
| Dynamics.MoveMirrors | benchmarks/bench_dynamics.cpp:363-415 | one move: a closer subscriber is sent the replica, which is its nearest now; everybody else is sent nothing; the shadow stays equal |
| Dynamics.HeededReaches | benchmarks/bench_dynamics.cpp:387-400 | what a publication that no brake or gate stops puts out, the subscribers' own sends in group order, and what it does to one subscriber |
| Dynamics.Trial.NoteReceive | benchmarks/bench_dynamics.cpp:333-342 | seen and shadow distance of one subscriber |
| Dynamics.Trial.Drain | benchmarks/bench_dynamics.cpp:345-350 | any interleaving of arrivals gives each subscriber its own arrivals in order: a replica is seen exactly when it was before or arrived, the distance is the least of all, and the replica the first to reach it |
| Dynamics.NotesAreShadow | benchmarks/bench_dynamics.cpp:333-342 | what a shadow holds after any arrivals, out-of-range numbers included |
| Dynamics.Trial.ClosestPub | benchmarks/bench_dynamics.cpp:89-97 | the first nearest replica below the start distance, or -1 |
| Dynamics.Trial.Migrate | benchmarks/bench_dynamics.cpp:353-385 | the classification of every subscriber, with its target |
| Dynamics.ShadowThroughMigrations | benchmarks/bench_dynamics.cpp:353-415 | through every migration of every run without brake, gate or expiry of the service, whatever else the broker handles in between, the shadow distance equals the broker's, closer cases are always sent the moved replica, and farther and unmeasured ones are never sent anything, the sends being those the broker puts out |
| Dynamics.DrainedShadowMirrors | benchmarks/bench_dynamics.cpp:315-350 | after the initial publications and a complete drain of what the broker sent the subscriber, whatever else it handled, the shadow equals what the broker stores and its replica is the nearest |
| Wilcoxon.MidRanks | scripts/bench_stats.py:69-78 | for any input and any sort order among ties, every item's doubled rank is 2 * smaller + equal + 1 |
| Wilcoxon.RunRanks | scripts/bench_stats.py:73-77 | a maximal run [i, j) of ties has i smaller items and j - i equal ones |
| Wilcoxon.RanksAddUp | scripts/bench_stats.py:69-78 | the ranks always add up to n(n + 1)/2 |
| Wilcoxon.SignedRank | scripts/bench_stats.py:61-82 | over the positions where x and y differ, in order: the rank sum of x > y and that of x < y add up to n(n + 1)/2, and W is the smaller and never exceeds its mean n(n + 1)/4 |
| Wilcoxon.DifferencesAreKept | scripts/bench_stats.py:62-65 | the differences kept are x minus y at exactly the positions where x and y differ, in order and each once |
| Wilcoxon.RankSumBySign | scripts/bench_stats.py:80-81 | a rank sum is the sum of the ranks at the positions of the differences of its sign |
| Wilcoxon.SumAtLaws | scripts/bench_stats.py:80-81 | a sum over positions is zero over none, and taking one position away takes away the rank there |
| Wilcoxon.NegationSwaps | scripts/bench_stats.py:80-81 | negating every difference swaps the two rank sums |

## Left out

- Sockets, epoll, signals, key files and their permissions: sends are values handlers return, receives are events.
- GMP: modular powers, inverses, gcd, primality and hexadecimal conversion are taken as mathematics; a blinded value is a number or the empty string, and strings that are no hexadecimal number are not modelled.
- std::hash is any function into 64 bits; decimal printing is any injective function; address printing is any function.
- IEEE arithmetic: rounding, NaN and overflow are not modelled; coordinates and distances are reals, so narrowing a region to floats on the wire is exact. On the wire floats are 32-bit patterns.
- Counters are unbounded where the source has 64 bits, and are one record instead of separate fields; the snapshots sub_groups and he_mode and the packing of statistics are plumbing.
- The logger, configuration parsing, command-line clients, plotting, bootstrap intervals and the timing harnesses add only easy members.
- handleStatsRequest only refreshes the two snapshots and answers; here it is a message without effect.
- The fields active, id, lat and lon of a child and BROKER_FORWARD are never read by the source's handlers; only the coordinates are kept, as HELLO stores them.
- L's congruence assertion is modelled as on, as in builds without NDEBUG; without it decryption under randomness that shares a factor with n returns an unspecified number.
- p = q: generation can draw the same prime twice; then lambda is still invertible but the key is not one the correctness theorems cover.
- PaillierKeys.Heps.BlindSubscription: a loaded modulus of 1 is left out, because drawing the random value would never end.
- r_m = 1: generation replaces a zero draw by 1, and the comparison is then one place off; the theorem states that case.
- Dishonest senders: clients that set a broker's flags or send HELLO or REGION_UPDATE are outside the tree theorems; the one-broker theorems cover every message.
- The clock: one time serves both brakes of a publication, where the source reads the clock in each brakeAllows call (src/broker/broker.cpp line 278, called at 447 and 504); a publication whose two calls fall in different seconds is not modelled.
- Names longer than 65535 bytes, names with characters above 255, and the receive buffer of 4096 bytes are outside Datagrams.SentIsReceived; STATS messages and BROKER_FORWARD read as other messages.
- Duplication of datagrams by the network is not modelled; loss and reordering are, except where a theorem asks for reliable ordered links.
- RegionReports.LeafRegionIsRecorded: is about brokers without children, because a broker with children forgets its clients' coordinates and does not report a region changed by HELLO; Regions.RegionHoldsExactly and RegionReports.RecordIsLastReport state for every broker what is kept instead.
- ClosestFilter.SubscriberHasTheNearest: speaks of one broker; across the tree a subscriber need not have the nearest publication, because quadrant distances are per child, shared by all services and never reset; Suppression.SuppressedAcrossTheTree is such a run.
- Encryption.EncryptedRunIsPlaintextRun: leaves out heartbeats, which carry the raw name in encrypted operation too.
- Dynamics.Trial.Migrate: a target of -1, which needs every replica to be at least 10^18 away, would read outside the source's vector; here it counts as not seen.
- Wilcoxon.SignedRank: normal approximation, z and p values are left out; finite inputs are assumed, as reals are.
- The documentation of STATS_DATA_EXT in src/protocol/TlvMessage.h line 34 says 80 bytes and ten values, the code sends 96 bytes and twelve; the benchmark's header says a row means that the nearest replica changed, the code also records a replica that moved and stayed nearest. The code is followed.
