/** The icon a notification banner shows for its type (`getNotificationIcon`). */
module Notifications {

  const SuccessIcon := "\U{2705}"
  const ErrorIcon := "\U{274C}"
  const InfoIcon := "\U{2139}\U{FE0F}"
  const WarningIcon := "\U{26A0}\U{FE0F}"

  /** `icons[type] || icons.info`: the icon of one of the four types, the info icon for any other type. */
  function NotificationIcon(kind: string): (icon: string)
    ensures icon in {SuccessIcon, ErrorIcon, InfoIcon, WarningIcon}
    ensures icon == InfoIcon <==> kind != "success" && kind != "error" && kind != "warning"
    ensures icon == SuccessIcon <==> kind == "success"
    ensures icon == ErrorIcon <==> kind == "error"
    ensures icon == WarningIcon <==> kind == "warning"
  {
    if kind == "success" then SuccessIcon
    else if kind == "error" then ErrorIcon
    else if kind == "warning" then WarningIcon
    else InfoIcon
  }
}
