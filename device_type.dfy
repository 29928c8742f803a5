/** The device family the app runs on, recognised from the platform's
    device-family string. */
module DeviceType {
  import opened Common

  datatype DeviceFamily = Mobile | Desktop | Xbox | Holographic | IoT | Team | Unidentified

  /** The platform string each recognised family is reported as. */
  function FamilyName(f: DeviceFamily): (r: Option<string>)
    ensures r.None? <==> f == Unidentified
  {
    match f
    case Mobile => Some("Windows.Mobile")
    case Desktop => Some("Windows.Desktop")
    case Xbox => Some("Windows.Xbox")
    case Holographic => Some("Windows.Holographic")
    case IoT => Some("Windows.IoT")
    case Team => Some("Windows.Team")
    case Unidentified => None
  }

  /** RecognizeDeviceFamily: exact, case-sensitive matching of the six
      platform strings; anything else is Unidentified. */
  function RecognizeDeviceFamily(deviceFamily: string): (r: DeviceFamily)
    ensures r != Unidentified ==> FamilyName(r) == Some(deviceFamily)
    ensures r == Unidentified ==> forall f :: FamilyName(f) != Some(deviceFamily)
  {
    match deviceFamily
    case "Windows.Mobile" => Mobile
    case "Windows.Desktop" => Desktop
    case "Windows.Xbox" => Xbox
    case "Windows.Holographic" => Holographic
    case "Windows.IoT" => IoT
    case "Windows.Team" => Team
    case _ => Unidentified
  }

  /** Every recognised family is recognised from its own platform string. */
  lemma RecognitionRoundTrip(f: DeviceFamily)
    requires f != Unidentified
    ensures RecognizeDeviceFamily(FamilyName(f).value) == f
  {
  }
}
