/**
 The identity and gate part of quarantine (`executor/src/quarantine_gate.rs`), and the step from a
 validated request over the prepared row to the restore call (`executor/src/quarantine_runtime.rs`).
 */
module QuarantineGate {
  import opened Options
  import opened Text

  datatype Json = Null | Bool(b: bool) | Int(n: int) | Float(text: string) | Text(s: string) | Array(items: seq<Json>)
                | Object(fields: map<string, Json>)

  const U32_MAX := 0xFFFF_FFFF
  const U64_MAX := 0xFFFF_FFFF_FFFF_FFFF
  const DEFAULT_TTL_SECONDS := 3600

  datatype Kind = Docker | Proxmox | Tailscale
  datatype Identity = Container(containerId: string) | Machine(node: string, vmid: nat) | Device(deviceId: string)
  datatype Context = Context(target: Identity, ttlSeconds: nat, readyForLive: bool)

  function KindOf(actionName: string): Option<Kind> {
    if actionName == "docker.quarantine_container" then Some(Docker)
    else if actionName == "proxmox.quarantine_vm" then Some(Proxmox)
    else if actionName == "tailscale.quarantine_device" then Some(Tailscale)
    else None
  }

  function Get(value: Json, field: string): Option<Json> {
    if value.Object? && field in value.fields then Some(value.fields[field]) else None
  }

  predicate IsControl(c: char) {
    c <= '\U{001F}' || '\U{007F}' <= c <= '\U{009F}'
  }

  predicate IsBounded(s: string, max: nat) {
    Trim(s) != "" && ByteLength(s) <= max && forall i :: 0 <= i < |s| ==> !IsControl(s[i])
  }

  function BoundedString(target: Json, field: string, max: nat): Option<string> {
    match Get(target, field)
    case Some(Text(s)) => if IsBounded(s, max) then Some(s) else None
    case _ => None
  }

  function TtlSeconds(target: Json): Option<nat> {
    match Get(target, "ttl_seconds")
    case None => Some(DEFAULT_TTL_SECONDS)
    case Some(Int(n)) => if 0 <= n <= U64_MAX && 60 <= n <= 86400 then Some(n) else None
    case Some(_) => None
  }

  predicate IsAlphanumeric(c: char) {
    '0' <= c <= '9' || 'a' <= c <= 'z' || 'A' <= c <= 'Z'
  }

  /** A full canonical container id, never a name or a short id. */
  predicate IsContainerId(s: string) {
    |s| == 64 && forall i :: 0 <= i < |s| ==> '0' <= s[i] <= '9' || 'a' <= s[i] <= 'f'
  }

  predicate IsNode(s: string) {
    && 1 <= |s| <= 63 && IsAlphanumeric(s[0]) && IsAlphanumeric(s[|s| - 1])
    && forall i :: 0 <= i < |s| ==> IsAlphanumeric(s[i]) || s[i] == '-'
  }

  predicate IsDeviceId(s: string) {
    forall i :: 0 <= i < |s| ==> IsAlphanumeric(s[i]) || s[i] == '-' || s[i] == '_'
  }

  function IdentityOf(kind: Kind, target: Json): Option<Identity> {
    match kind
    case Docker =>
      (match BoundedString(target, "container_id", 64)
       case Some(id) => if IsContainerId(id) then Some(Container(id)) else None
       case None => None)
    case Proxmox =>
      (match (BoundedString(target, "node", 63), Get(target, "vmid"))
       case (Some(node), Some(Int(vmid))) =>
         if IsNode(node) && 0 < vmid <= U32_MAX then Some(Machine(node, vmid)) else None
       case (_, _) => None)
    case Tailscale =>
      (match BoundedString(target, "device_id", 256)
       case Some(id) => if IsDeviceId(id) then Some(Device(id)) else None
       case None => None)
  }

  /** The operator's context, required on every path that is not a dry run. */
  predicate HasOperatorContext(target: Json) {
    && BoundedString(target, "data_owner", 256).Some?
    && BoundedString(target, "snapshot_restore_reference", 2048).Some?
    && BoundedString(target, "management_network_plan", 2048).Some?
  }

  function ValidateContext(actionName: string, target: Json, dryRun: bool): Option<Context> {
    match KindOf(actionName)
    case None => None
    case Some(kind) =>
      if !target.Object? || (!dryRun && !HasOperatorContext(target)) then None
      else
        match (TtlSeconds(target), IdentityOf(kind, target))
        case (Some(ttl), Some(identity)) => Some(Context(identity, ttl, false))
        case (_, _) => None
  }

  // --- identities ---------------------------------------------------------------------------

  function AdapterOf(identity: Identity): Kind {
    match identity
    case Container(_) => Docker
    case Machine(_, _) => Proxmox
    case Device(_) => Tailscale
  }

  function Fingerprint(identity: Identity): string {
    match identity
    case Container(id) => id
    case Machine(node, vmid) => node + "/" + Decimal(vmid)
    case Device(id) => id
  }

  predicate Canonical(identity: Identity) {
    match identity
    case Container(id) => IsContainerId(id)
    case Machine(node, vmid) => IsNode(node) && 0 < vmid <= U32_MAX
    case Device(id) => IsDeviceId(id)
  }

  /**
   The columns of the unique index on active generations identify the target: two validated
   identities with the same adapter and fingerprint are the same.
   */
  lemma FingerprintIdentifies(a: Identity, b: Identity)
    requires Canonical(a) && Canonical(b) && AdapterOf(a) == AdapterOf(b) && Fingerprint(a) == Fingerprint(b)
    ensures a == b
  {
    match (a, b)
    case (Machine(n, v), Machine(m, w)) =>
      SplitFirst(n, '/', Decimal(v));
      SplitFirst(m, '/', Decimal(w));
      SplitWhole(Decimal(v), '/');
      SplitWhole(Decimal(w), '/');
      assert n + "/" + Decimal(v) == n + ['/'] + Decimal(v);
      assert m + "/" + Decimal(w) == m + ['/'] + Decimal(w);
      assert [n, Decimal(v)] == [n] + [Decimal(v)] == [m] + [Decimal(w)] == [m, Decimal(w)];
      ValueOfDecimal(v);
      ValueOfDecimal(w);
    case (_, _) =>
  }

  /** What passes live validation passes the restore path's validation with the same identity and TTL. */
  lemma LiveContextRestores(actionName: string, target: Json)
    ensures ValidateContext(actionName, target, false).Some? ==>
              ValidateContext(actionName, target, true) == ValidateContext(actionName, target, false)
    ensures ValidateContext(actionName, target, true).Some? ==>
              var context := ValidateContext(actionName, target, true).value;
              && Canonical(context.target) && !context.readyForLive
              && (60 <= context.ttlSeconds <= 86400)
              && (context.ttlSeconds == DEFAULT_TTL_SECONDS
                  || Get(target, "ttl_seconds") == Some(Int(context.ttlSeconds)))
  {
  }

  // --- from the request to the restore ------------------------------------------------------

  datatype Intent = Intent(actionName: string, target: Json, adapter: Kind, fingerprint: string, plan: Json)

  function SnapshotField(identity: Identity): Option<string> {
    match identity
    case Container(_) => Some("networks")
    case Machine(_, _) => Some("original_net0")
    case Device(_) => None
  }

  /** `restore_target`: the approved target with the snapshot put in, or no restore. */
  function RestoreTarget(intent: Intent): Option<Json> {
    match ValidateContext(intent.actionName, intent.target, true)
    case None => None
    case Some(context) =>
      match SnapshotField(context.target)
      case None => None
      case Some(field) =>
        if AdapterOf(context.target) != intent.adapter || Fingerprint(context.target) != intent.fingerprint then None
        else
          match Get(intent.plan, field)
          case None => None
          case Some(snapshot) => Some(Object(intent.target.fields[field := snapshot]))
  }

  /** The row that `apply_prepared_observed` prepares for a validated live request and a preflight snapshot. */
  function PreparedIntent(actionName: string, target: Json, snapshot: Json): Option<Intent> {
    match ValidateContext(actionName, target, false)
    case None => None
    case Some(context) =>
      match SnapshotField(context.target)
      case None => None
      case Some(field) =>
        Some(Intent(actionName, target, AdapterOf(context.target), Fingerprint(context.target),
                    Object(map[field := snapshot])))
  }

  /**
   Every prepared row can be restored: the restore call gets the approved target, unchanged except
   for the one snapshot field, which holds exactly the preflight snapshot, and it names the same
   container or VM that was approved.
   */
  lemma PreparedIntentRestores(actionName: string, target: Json, snapshot: Json)
    requires PreparedIntent(actionName, target, snapshot).Some?
    ensures var intent := PreparedIntent(actionName, target, snapshot).value;
            var restore := RestoreTarget(intent);
            var identity := ValidateContext(actionName, target, false).value.target;
            var field := SnapshotField(identity).value;
            && field == (if identity.Container? then "networks" else "original_net0") && !identity.Device?
            && restore.Some? && Get(restore.value, field) == Some(snapshot)
            && (forall other :: other != field ==> Get(restore.value, other) == Get(target, other))
            && ValidateContext(actionName, restore.value, true) == ValidateContext(actionName, target, true)
            && Fingerprint(identity) == intent.fingerprint
  {
    LiveContextRestores(actionName, target);
    var intent := PreparedIntent(actionName, target, snapshot).value;
    var field := SnapshotField(ValidateContext(actionName, target, false).value.target).value;
    SnapshotKeepsContext(intent, field, snapshot);
    assert RestoreTarget(intent) == Some(Object(target.fields[field := snapshot]));
  }

  lemma SnapshotIsNotIdentity(field: string)
    requires field == "networks" || field == "original_net0"
    ensures field != "ttl_seconds" && field != "container_id" && field != "node" && field != "vmid"
            && field != "device_id"
  {
    assert "networks"[2] == 't' && "original_net0"[0] == 'o';
    assert "ttl_seconds"[0] == 't' && "container_id"[0] == 'c' && "node"[0] == 'n' && "node"[2] == 'd'
           && "vmid"[0] == 'v' && "device_id"[0] == 'd';
  }

  /**
   Exactly when a row can be restored, and what it touches: take the target that the recorded adapter
   and fingerprint name. The row is restorable if and only if its approved target validates to that
   very target and its plan holds the snapshot; the restore call then names it, with that snapshot.
   A row whose recorded identity is another target's is never restored.
   */
  lemma RestoreTouchesRecordedTarget(intent: Intent, recorded: Identity)
    requires Canonical(recorded) && AdapterOf(recorded) == intent.adapter && Fingerprint(recorded) == intent.fingerprint
    ensures var restore := RestoreTarget(intent);
            var approved := ValidateContext(intent.actionName, intent.target, true);
            var field := match recorded
                         case Container(_) => Some("networks")
                         case Machine(_, _) => Some("original_net0")
                         case Device(_) => None;
            && (restore.Some?
                <==>
                && approved.Some? && approved.value.target == recorded
                && field.Some? && Get(intent.plan, field.value).Some?)
            && (restore.Some? ==>
                  && ValidateContext(intent.actionName, restore.value, true) == approved
                  && Get(restore.value, field.value) == Get(intent.plan, field.value))
  {
    LiveContextRestores(intent.actionName, intent.target);
    var approved := ValidateContext(intent.actionName, intent.target, true);
    if approved.Some? && AdapterOf(approved.value.target) == intent.adapter
       && Fingerprint(approved.value.target) == intent.fingerprint {
      FingerprintIdentifies(approved.value.target, recorded);
      if SnapshotField(recorded).Some? && Get(intent.plan, SnapshotField(recorded).value).Some? {
        var field := SnapshotField(recorded).value;
        SnapshotKeepsContext(intent, field, Get(intent.plan, field).value);
      }
    }
  }

  /** Putting a snapshot into a validated target changes nothing that the validation reads. */
  lemma SnapshotKeepsContext(intent: Intent, field: string, snapshot: Json)
    requires ValidateContext(intent.actionName, intent.target, true).Some?
    requires field == "networks" || field == "original_net0"
    ensures ValidateContext(intent.actionName, Object(intent.target.fields[field := snapshot]), true)
            == ValidateContext(intent.actionName, intent.target, true)
  {
    var restored := Object(intent.target.fields[field := snapshot]);
    SnapshotIsNotIdentity(field);
    assert Get(restored, "ttl_seconds") == Get(intent.target, "ttl_seconds");
    assert Get(restored, "container_id") == Get(intent.target, "container_id");
    assert Get(restored, "node") == Get(intent.target, "node") && Get(restored, "vmid") == Get(intent.target, "vmid");
    assert Get(restored, "device_id") == Get(intent.target, "device_id");
  }
}
