/** Platform permission logic: Health Connect permission keys, the
    keep-first de-duplication of granted permissions, the all-required-reads
    grant decision, and the HealthKit initialisation outcome. */
module Permissions {
  import opened Wrappers
  import opened Vitals
  import Dedup

  datatype Access = Read | Write

  /** A Health Connect permission `{ accessType, recordType }`. */
  datatype Permission = Permission(recordType: string, access: Access)

  function AccessName(a: Access): string
  {
    match a
    case Read => "read"
    case Write => "write"
  }

  /** `permissionKey`: `${recordType}:${accessType}`. */
  function Key(p: Permission): string
  {
    p.recordType + ":" + AccessName(p.access)
  }

  /** Two permissions share a key exactly when they are the same permission,
      so comparing keys is comparing permissions. */
  lemma KeyInjective(p: Permission, q: Permission)
    ensures Key(p) == Key(q) <==> p == q
  {
    if Key(p) == Key(q) {
      var kp, kq := Key(p), Key(q);
      assert kp[|kp| - 1] == kq[|kq| - 1];
      assert p.access == q.access;
      var n := |AccessName(p.access)| + 1;
      assert kp[..|kp| - n] == p.recordType;
      assert kq[..|kq| - n] == q.recordType;
    }
  }

  /** Every permission the app asks Health Connect for. */
  const HealthConnectPermissions: seq<Permission> := [
    Permission("Steps", Read), Permission("Steps", Write), Permission("HeartRate", Read),
    Permission("SleepSession", Read), Permission("Distance", Read),
    Permission("ActiveCaloriesBurned", Read), Permission("TotalCaloriesBurned", Read),
    Permission("ExerciseSession", Read), Permission("Weight", Read), Permission("Weight", Write),
    Permission("BloodPressure", Read), Permission("BloodGlucose", Read),
    Permission("BodyTemperature", Read), Permission("OxygenSaturation", Read),
    Permission("RespiratoryRate", Read)
  ]

  /** The reads a sync cannot do without; write access and the vitals reads are optional. */
  const RequiredReads: seq<Permission> := [
    Permission("Steps", Read), Permission("HeartRate", Read), Permission("SleepSession", Read),
    Permission("Distance", Read), Permission("TotalCaloriesBurned", Read),
    Permission("ExerciseSession", Read), Permission("ActiveCaloriesBurned", Read)
  ]

  /** The set of keys of a permission list (`new Set(list.map(permissionKey))`). */
  function Keys(s: seq<Permission>): set<string>
  {
    Dedup.KeySet(s, Key)
  }

  /** `permissions.filter(p => !granted.some(g => permissionKey(g) === permissionKey(p)))`. */
  function Missing(wanted: seq<Permission>, granted: seq<Permission>): (r: seq<Permission>)
    ensures |r| <= |wanted|
    ensures forall p :: p in r <==> p in wanted && Key(p) !in Keys(granted)
  {
    if |wanted| == 0 then []
    else
      var init := wanted[..|wanted| - 1];
      var last := wanted[|wanted| - 1];
      assert wanted == init + [last];
      Missing(init, granted) + (if Key(last) in Keys(granted) then [] else [last])
  }

  /** `PermissionResult`. `grantedPermissions` is only reported by Health Connect. */
  datatype PermissionResult = PermissionResult(
    granted: bool, platform: Platform, details: seq<string>, grantedPermissions: Option<seq<Permission>>)

  const HealthConnectUnavailable: string :=
    "Health Connect is not available or needs an update. Install or update Health Connect from Google Play."

  /** `${recordType} (${accessType})`. */
  function Describe(p: Permission): string
  {
    p.recordType + " (" + AccessName(p.access) + ")"
  }

  function DescribeAll(s: seq<Permission>): (r: seq<string>)
    ensures |r| == |s| && forall i :: 0 <= i < |s| ==> r[i] == Describe(s[i])
  {
    if |s| == 0 then [] else [Describe(s[0])] + DescribeAll(s[1..])
  }

  /** What one Health Connect permission round produces: the result and the
      permissions that were asked for. */
  datatype Negotiation = Negotiation(result: PermissionResult, requested: seq<Permission>)

  /** Every required read key is among `keys`. */
  predicate AllRequired(keys: set<string>)
  {
    forall i :: 0 <= i < |RequiredReads| ==> Key(RequiredReads[i]) in keys
  }

  /** `ensureHealthConnectPermissions`. The SDK's answers are inputs: whether it
      is available, what was already granted, and what the permission dialog
      grants when it is shown (`dialogReply`). */
  function EnsureHealthConnectPermissions(sdkAvailable: bool, alreadyGranted: seq<Permission>,
                                          dialogReply: seq<Permission>): (n: Negotiation)
    ensures !sdkAvailable ==>
      n.result == PermissionResult(false, Android, [HealthConnectUnavailable], None) && n.requested == []
    ensures sdkAvailable ==>
      // exactly the app's permissions that are not already granted are requested
      && (forall p :: p in n.requested <==> p in HealthConnectPermissions && Key(p) !in Keys(alreadyGranted))
      // the dialog only runs when something is missing
      && var newly := if |n.requested| > 0 then dialogReply else [];
      && n.result.platform == Android
      && n.result.grantedPermissions.Some?
      && var access := n.result.grantedPermissions.value;
      && Keys(access) == Keys(alreadyGranted + newly)
      && (forall i, j :: 0 <= i < j < |access| ==> Key(access[i]) != Key(access[j]))
      && (forall q :: q in access ==> q in alreadyGranted + newly)
      && n.result.details == DescribeAll(access)
      // granted iff every required read is in the union of old and new grants
      && (n.result.granted <==> AllRequired(Keys(alreadyGranted + newly)))
  {
    if !sdkAvailable then
      Negotiation(PermissionResult(false, Android, [HealthConnectUnavailable], None), [])
    else
      var missing := Missing(HealthConnectPermissions, alreadyGranted);
      var newly := if |missing| > 0 then dialogReply else [];
      var access := Dedup.KeepFirst(alreadyGranted + newly, Key);
      var grantedKeys := Keys(access);
      Negotiation(PermissionResult(AllRequired(grantedKeys), Android, DescribeAll(access), Some(access)), missing)
  }

  /** How `AppleHealthKit.initHealthKit` ended. */
  datatype HealthKitInit = ModuleMissing | InitError(message: string) | InitThrew(message: string) | InitOk

  /** The iOS branch of `requestPlatformPermissions`: granted only when
      HealthKit initialised without error. */
  function RequestHealthKitPermissions(init: HealthKitInit): (r: PermissionResult)
    ensures r.platform == Ios && r.grantedPermissions.None?
    ensures r.granted <==> init == InitOk
    ensures init.InitError? || init.InitThrew? ==> r.details == [init.message]
  {
    match init
    case ModuleMissing => PermissionResult(false, Ios, ["Native module not available"], None)
    case InitError(m) => PermissionResult(false, Ios, [m], None)
    case InitThrew(m) => PermissionResult(false, Ios, [m], None)
    case InitOk => PermissionResult(true, Ios, ["Permissions granted or already authorized"], None)
  }

  /** The weight read is optional: Health Connect only aggregates weight
      totals when some granted permission reads weight. A result without a
      granted list (as on iOS) has no weight access. */
  function HasWeightAccess(r: PermissionResult): (b: bool)
    ensures r.grantedPermissions.None? ==> !b
    ensures r.grantedPermissions.Some? ==>
      (b <==> exists i :: 0 <= i < |r.grantedPermissions.value| &&
                r.grantedPermissions.value[i].recordType == "Weight" && r.grantedPermissions.value[i].access == Read)
  {
    Permission("Weight", Read) in r.grantedPermissions.GetOr([])
  }
}
