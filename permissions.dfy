/**
 * WorldWipePermissions: the permission strings of the plugin and the rules that read them. A
 * holder is what it answers to hasPermission; the server's PermissionsModule answers for a
 * player's id. Either can be absent (null in the source).
 */
module Permissions {
  import opened JavaText
  import opened Offline

  const Admin: string := "worldwipe.admin"
  const Help: string := "worldwipe.help"
  const Schedule: string := "worldwipe.schedule"
  const ScheduleWorldPrefix: string := "worldwipe.schedule."
  const CommandPrefix: string := "worldwipe.commands."

  /** A PermissionHolder, by the permissions it holds. */
  type Holder = string -> bool

  /** PermissionsModule.hasPermission(uuid, permission). */
  type PermissionsModule = (PlayerId, string) -> bool

  /** The name in a permission: trimmed and lower-cased, empty for a missing name. */
  function Sanitized(name: Option<string>): string
  {
    if name.None? then "" else Lower(Trim(name.value))
  }

  /** scheduleWorld: the per-world schedule permission. */
  function ScheduleWorld(worldName: Option<string>): (r: string)
    ensures StartsWith(r, ScheduleWorldPrefix) && r[|ScheduleWorldPrefix|..] == Sanitized(worldName)
    ensures worldName.None? ==> r == ScheduleWorldPrefix
  {
    ScheduleWorldPrefix + Sanitized(worldName)
  }

  /** command: the permission of a sub-command. */
  function Command(commandName: Option<string>): (r: string)
    ensures StartsWith(r, CommandPrefix) && r[|CommandPrefix|..] == Sanitized(commandName)
  {
    CommandPrefix + Sanitized(commandName)
  }

  /** Two names give the same permission exactly when they agree once trimmed and lower-cased:
      case and surrounding spaces do not matter, anything else does. */
  lemma CommandIgnoresCaseAndSpaces(a: string, b: string)
    ensures Command(Some(a)) == Command(Some(b)) <==> Lower(Trim(a)) == Lower(Trim(b))
  {
    if Command(Some(a)) == Command(Some(b)) {
      assert Command(Some(a))[|CommandPrefix|..] == Command(Some(b))[|CommandPrefix|..];
    }
  }

  /** The same for the per-world schedule permission. */
  lemma ScheduleWorldIgnoresCaseAndSpaces(a: string, b: string)
    ensures ScheduleWorld(Some(a)) == ScheduleWorld(Some(b)) <==> Lower(Trim(a)) == Lower(Trim(b))
  {
    if ScheduleWorld(Some(a)) == ScheduleWorld(Some(b)) {
      assert ScheduleWorld(Some(a))[|ScheduleWorldPrefix|..] == ScheduleWorld(Some(b))[|ScheduleWorldPrefix|..];
    }
  }

  /** The holder overloads' test: a missing holder holds nothing. */
  predicate Holds(holder: Option<Holder>, permission: string)
  {
    holder.Some? && holder.value(permission)
  }

  /** hasPermission(uuid, permission): false without the module, without an id, or for a
      missing or blank permission; otherwise the module's answer. */
  predicate HasPermission(perms: Option<PermissionsModule>, uuid: Option<PlayerId>, permission: Option<string>)
  {
    perms.Some? && uuid.Some? && permission.Some? && !IsBlank(permission.value) &&
    perms.value(uuid.value, permission.value)
  }

  predicate HasAdmin(holder: Option<Holder>) { Holds(holder, Admin) }
  predicate HasHelp(holder: Option<Holder>) { Holds(holder, Help) }
  predicate HasScheduleView(holder: Option<Holder>) { Holds(holder, Schedule) }

  /** hasCommand(holder, commandName) */
  predicate HasCommand(holder: Option<Holder>, commandName: Option<string>)
  {
    Holds(holder, Command(commandName))
  }

  /** hasCommand(uuid, commandName) */
  predicate HasCommandById(perms: Option<PermissionsModule>, uuid: Option<PlayerId>, commandName: Option<string>)
  {
    HasPermission(perms, uuid, Some(Command(commandName)))
  }

  /** canViewSchedule(holder, worldName): an admin sees every schedule; otherwise the holder
      needs the schedule permission and the world's own one. */
  function CanViewSchedule(holder: Option<Holder>, worldName: Option<string>): (r: bool)
    ensures holder.None? ==> !r
    ensures Holds(holder, Admin) ==> r
    ensures !Holds(holder, Admin) && !Holds(holder, Schedule) ==> !r
    ensures Holds(holder, Schedule) && !Holds(holder, Admin) ==>
              (r <==> worldName.Some? && Holds(holder, ScheduleWorld(worldName)))
  {
    if holder.None? then false
    else if holder.value(Admin) then true
    else if !holder.value(Schedule) then false
    else worldName.Some? && holder.value(ScheduleWorld(worldName))
  }

  /** canViewSchedule(uuid, worldName): the same rule, asked of the permissions module. */
  function CanViewScheduleById(perms: Option<PermissionsModule>, uuid: Option<PlayerId>, worldName: Option<string>)
    : (r: bool)
    ensures perms.None? || uuid.None? ==> !r
    ensures HasPermission(perms, uuid, Some(Admin)) ==> r
    ensures !HasPermission(perms, uuid, Some(Admin)) && !HasPermission(perms, uuid, Some(Schedule)) ==> !r
    ensures HasPermission(perms, uuid, Some(Schedule)) && !HasPermission(perms, uuid, Some(Admin)) ==>
              (r <==> worldName.Some? && HasPermission(perms, uuid, Some(ScheduleWorld(worldName))))
  {
    if uuid.None? then false
    else if HasPermission(perms, uuid, Some(Admin)) then true
    else if !HasPermission(perms, uuid, Some(Schedule)) then false
    else worldName.Some? && HasPermission(perms, uuid, Some(ScheduleWorld(worldName)))
  }

  /** The two overloads agree: asking the module about a player is asking the holder that holds
      what the module grants that player. */
  lemma ViewOverloadsAgree(perms: PermissionsModule, uuid: PlayerId, worldName: Option<string>)
    ensures CanViewScheduleById(Some(perms), Some(uuid), worldName) ==
            CanViewSchedule(Some(p => perms(uuid, p)), worldName)
  {
    assert !IsBlank(Admin) by { assert !IsWhitespace(Admin[0]); }
    assert !IsBlank(Schedule) by { assert !IsWhitespace(Schedule[0]); }
    var perm := ScheduleWorld(worldName);
    assert !IsBlank(perm) by { assert perm[0] == 'w'; assert !IsWhitespace(perm[0]); }
  }

  /** Granting more never hides a schedule: a holder whose permissions include another's sees
      every schedule the other sees. */
  lemma CanViewMonotone(weaker: Holder, stronger: Holder, worldName: Option<string>)
    requires forall p :: weaker(p) ==> stronger(p)
    ensures CanViewSchedule(Some(weaker), worldName) ==> CanViewSchedule(Some(stronger), worldName)
  {
    if CanViewSchedule(Some(weaker), worldName) && !stronger(Admin) {
      assert weaker(Schedule) && weaker(ScheduleWorld(worldName));
    }
  }
}
