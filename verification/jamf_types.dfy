/**
 * The value types shared by the decoder and the client: the device records the
 * XML decoder builds, the tag that selects which of them a decode returns, and
 * the body of a successful login.
 */
module JamfTypes {

  datatype Option<+T> = None | Some(value: T)

  /**
   * Which output a decode returns: `Computers` stands for the source's
   * `.jamfDevice`, `MobileDevices` for `.jamfMobileDevice` and
   * `MobileDeviceDetails` for `.jamfMobileDeviceDetails`.
   */
  datatype JamfDeviceType = Computers | MobileDevices | MobileDeviceDetails

  /** One entry of the computer inventory list. */
  datatype JamfDevice = JamfDevice(
    id: string,
    name: string,
    model: string,
    reportDateEpoch: string,
    managed: string)

  /** One entry of the mobile-device inventory list. */
  datatype JamfMobileDevice = JamfMobileDevice(
    id: string,
    name: string,
    model: string,
    username: string,
    managed: string,
    supervised: string)

  /** The `general` block of a single mobile device. */
  datatype JamfMobileDeviceDetails = JamfMobileDeviceDetails(
    id: string,
    name: string,
    model: string,
    username: string,
    osVersion: string,
    osBuild: string,
    phoneNumber: string,
    modelIdentifier: string,
    modelNumber: string,
    serialNumber: string)

  /** The JSON body the login endpoint answers with. */
  datatype AuthResponse = AuthResponse(token: string, expires: string)
}
