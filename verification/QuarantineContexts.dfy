/**
 Exactly which requests the quarantine validation accepts, and as what (`executor/src/quarantine_gate.rs`),
 by the fields of the request alone.
 */
module QuarantineContexts {
  import opened Options
  import opened Text
  import opened QuarantineGate

  /**
   The time to live by the request: an hour if it names none, else a whole number of seconds within
   a minute and a day.
   */
  predicate LivesFor(target: Json, ttl: nat) {
    match Get(target, "ttl_seconds")
    case None => ttl == 3600
    case Some(value) => value == Int(ttl) && 60 <= ttl <= 86_400
  }

  /** The field is a text of at most `max` bytes that is not blank and holds no control character. */
  ghost predicate IsProse(target: Json, field: string, max: nat) {
    exists s ::
      && Get(target, field) == Some(Json.Text(s)) && ByteLength(s) <= max
      && (exists i :: 0 <= i < |s| && !IsSpace(s[i]))
      && forall i :: 0 <= i < |s| ==> ' ' <= s[i] && !('\U{007F}' <= s[i] <= '\U{009F}')
  }

  lemma ProseIsBounded(target: Json, field: string, max: nat)
    ensures BoundedString(target, field, max).Some? <==> IsProse(target, field, max)
    ensures BoundedString(target, field, max).Some? ==>
              Get(target, field) == Some(Json.Text(BoundedString(target, field, max).value))
  {
    match Get(target, field)
    case Some(Text(s)) => TrimIsBlank(s);
    case _ =>
  }

  /**
   A live request is accepted exactly when the same request is accepted as a dry run and names a data
   owner, a restore reference and a management network plan.
   */
  lemma LiveExactlyWhen(actionName: string, target: Json)
    ensures ValidateContext(actionName, target, false).Some?
            <==>
            && ValidateContext(actionName, target, true).Some?
            && IsProse(target, "data_owner", 256)
            && IsProse(target, "snapshot_restore_reference", 2048)
            && IsProse(target, "management_network_plan", 2048)
  {
    ProseIsBounded(target, "data_owner", 256);
    ProseIsBounded(target, "snapshot_restore_reference", 2048);
    ProseIsBounded(target, "management_network_plan", 2048);
  }

  lemma {:induction false} PlainLength(s: string)
    requires forall i :: 0 <= i < |s| ==> s[i] < '\U{0080}'
    ensures ByteLength(s) == |s|
  {
    if s != [] { PlainLength(s[1..]); }
  }

  /** A non-empty text of visible ASCII characters passes the checks that all texts must pass. */
  lemma VisibleIsBounded(s: string, max: nat)
    requires forall i :: 0 <= i < |s| ==> '!' <= s[i] <= '~'
    ensures IsBounded(s, max) <==> 1 <= |s| <= max
  {
    PlainLength(s);
    TrimIsBlank(s);
  }

  lemma ContainerIdIsBounded(s: string)
    requires IsContainerId(s)
    ensures IsBounded(s, 64)
  {
    VisibleIsBounded(s, 64);
  }

  /** A container is accepted exactly by its full id of 64 hexadecimal digits in lower case. */
  lemma DockerContextExactlyWhen(target: Json, context: Context)
    ensures ValidateContext("docker.quarantine_container", target, true) == Some(context)
            <==>
            && target.Object? && LivesFor(target, context.ttlSeconds) && !context.readyForLive
            && context.target.Container?
            && var id := context.target.containerId;
            && Get(target, "container_id") == Some(Json.Text(id)) && |id| == 64
            && forall i :: 0 <= i < 64 ==> '0' <= id[i] <= '9' || 'a' <= id[i] <= 'f'
  {
    match Get(target, "container_id")
    case Some(Text(id)) => if IsContainerId(id) { ContainerIdIsBounded(id); }
    case _ =>
  }

  /** A character of a DNS label. */
  predicate IsLabel(c: char) {
    '0' <= c <= '9' || 'a' <= c <= 'z' || 'A' <= c <= 'Z' || c == '-'
  }

  /** A VM is accepted exactly by a node that is one DNS label and a positive number of 32 bits. */
  lemma ProxmoxContextExactlyWhen(target: Json, context: Context)
    ensures ValidateContext("proxmox.quarantine_vm", target, true) == Some(context)
            <==>
            && target.Object? && LivesFor(target, context.ttlSeconds) && !context.readyForLive
            && context.target.Machine?
            && var node, vmid := context.target.node, context.target.vmid;
            && Get(target, "node") == Some(Json.Text(node)) && Get(target, "vmid") == Some(Int(vmid))
            && 1 <= |node| <= 63 && node[0] != '-' && node[|node| - 1] != '-'
            && (forall i :: 0 <= i < |node| ==> IsLabel(node[i]))
            && 1 <= vmid <= 4_294_967_295
  {
    match Get(target, "node")
    case Some(Text(node)) => if IsNode(node) { VisibleIsBounded(node, 63); }
    case _ =>
    ActionKinds();
  }

  lemma ActionKinds()
    ensures KindOf("proxmox.quarantine_vm") == Some(Proxmox)
    ensures KindOf("tailscale.quarantine_device") == Some(Tailscale)
  {
    assert "docker.quarantine_container"[0] == 'd' && "proxmox.quarantine_vm"[0] == 'p'
           && "tailscale.quarantine_device"[0] == 't';
  }

  /** A device is accepted exactly by an id of at most 256 letters, digits, hyphens and underscores. */
  lemma TailscaleContextExactlyWhen(target: Json, context: Context)
    ensures ValidateContext("tailscale.quarantine_device", target, true) == Some(context)
            <==>
            && target.Object? && LivesFor(target, context.ttlSeconds) && !context.readyForLive
            && context.target.Device?
            && var id := context.target.deviceId;
            && Get(target, "device_id") == Some(Json.Text(id)) && 1 <= |id| <= 256
            && forall i :: 0 <= i < |id| ==> IsLabel(id[i]) || id[i] == '_'
  {
    match Get(target, "device_id")
    case Some(Text(id)) => if IsDeviceId(id) { VisibleIsBounded(id, 256); }
    case _ =>
    ActionKinds();
  }

  /** No other action is accepted. */
  lemma OtherActionsRefused(actionName: string, target: Json, dryRun: bool)
    requires actionName != "docker.quarantine_container" && actionName != "proxmox.quarantine_vm"
    requires actionName != "tailscale.quarantine_device"
    ensures ValidateContext(actionName, target, dryRun).None?
  {
  }
}
