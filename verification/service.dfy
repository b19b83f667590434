/** The platform entry points of the health service: each picks the Health
    Connect path on Android and the HealthKit path on iOS. */
module Service {
  import opened Vitals
  import opened TimeWindow
  import Permissions
  import HealthConnect
  import Apple
  import AppleDaily

  /** `Platform.OS`. */
  datatype Os = AndroidOs | IosOs

  /** `syncVitalsRange` always asks for the hourly view. */
  const USE_HOURLY_GRANULARITY: bool := true

  /** What each platform's SDK answers when asked for permissions. */
  datatype PermissionReplies = PermissionReplies(
    sdkAvailable: bool, alreadyGranted: seq<Permissions.Permission>,
    dialogReply: seq<Permissions.Permission>, healthKit: Permissions.HealthKitInit)

  /** `requestPlatformPermissions`. */
  function RequestPlatformPermissions(os: Os, replies: PermissionReplies): (r: Permissions.PermissionResult)
    ensures os == AndroidOs ==> r.platform == Android
    ensures os == IosOs ==> r.platform == Ios && (r.granted <==> replies.healthKit == Permissions.InitOk)
  {
    match os
    case AndroidOs =>
      Permissions.EnsureHealthConnectPermissions(replies.sdkAvailable, replies.alreadyGranted, replies.dialogReply).result
    case IosOs => Permissions.RequestHealthKitPermissions(replies.healthKit)
  }

  /** `syncVitalsRange(start, end)`, given what each SDK returns for the window. */
  function SyncVitalsRange(os: Os, replies: PermissionReplies, w: Window,
                           hc: HealthConnect.HealthConnectData, apple: Apple.AppleData): (o: RangeOutcome)
    // iOS never rejects (getter failures reach the callback; a synchronous
    // throw is not modelled), and carries the intraday points and the rolled-up days
    ensures os == IosOs ==>
      && o.Resolved? && o.result.platform == Ios
      && o.result.hourly == AppleDaily.HourlyPoints(apple)
      && o.result.daily == AppleDaily.Daily(true, apple)
    // Android rejects exactly when the permission round of the same call is not granted
    ensures os == AndroidOs ==>
      && (o.Rejected? <==> !RequestPlatformPermissions(AndroidOs, replies).granted)
      && (o.Resolved? ==> o.result.platform == Android)
  {
    match os
    case AndroidOs =>
      HealthConnect.SyncHealthConnectRange(replies.sdkAvailable, replies.alreadyGranted, replies.dialogReply, w, hc)
    case IosOs => Resolved(AppleDaily.AppleRange(USE_HOURLY_GRANULARITY, apple))
  }
}
