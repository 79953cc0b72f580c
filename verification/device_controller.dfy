/** `DeviceController`: validate the request's device fields against
    `DeviceSchema`, then insert one `device_info` row. */
module DeviceController {
  import opened Wrappers
  import opened Replies
  import opened Database
  import DeviceSchema

  /** What a successful creation reports: the three request fields. */
  datatype DeviceData = DeviceData(userAgent: string, acceptLanguage: string, ip: string)

  const Validated := "Device validated successfully"
  const ValidationError := "Error validating device! Please try again later."
  const Created := "Device created successfully"
  const CreateError := "Error creating device! Please try again later."

  /** `validate_device`: the schema's verdict, with any rejection caught. */
  function ValidateDevice(userAgent: Option<string>, acceptLanguage: Option<string>, ip: Option<string>,
                          userId: Option<int>): (r: Reply<DeviceSchema.Device>)
    ensures r.Ok? <==> DeviceSchema.Construct(userAgent, acceptLanguage, ip, userId).Success?
    ensures r.Ok? ==> r == Ok(Validated, DeviceSchema.Device(userAgent.value, acceptLanguage.value, ip.value, userId.value))
    ensures r.Err? ==> r.message == ValidationError
  {
    match DeviceSchema.Construct(userAgent, acceptLanguage, ip, userId)
    case Failure(_) => Err(ValidationError)
    case Success(device) => Ok(Validated, device)
  }

  /** `create_device`: a rejected device is reported as validation reported
      it and nothing is written; an accepted one is inserted with exactly
      its validated fields, provided its user row exists. */
  function CreateDevice(db: Db, userAgent: Option<string>, acceptLanguage: Option<string>, ip: Option<string>,
                        userId: Option<int>): (r: (Reply<DeviceData>, Db))
    ensures ValidateDevice(userAgent, acceptLanguage, ip, userId).Err? ==>
      r == (Err(ValidateDevice(userAgent, acceptLanguage, ip, userId).message), db)
    ensures r.0.Ok? <==> (ValidateDevice(userAgent, acceptLanguage, ip, userId).Ok? && db.health == Up
      && HasUser(db.users, userId.value))
    ensures ValidateDevice(userAgent, acceptLanguage, ip, userId).Ok? && !HasUser(db.users, userId.value) ==>
      r == (Err(CreateError), db)
    ensures r.0.Ok? ==>
      && r.0 == Ok(Created, DeviceData(userAgent.value, acceptLanguage.value, ip.value))
      && r.1 == db.(devices := db.devices + [DeviceRow(|db.devices| + 1, userAgent.value, acceptLanguage.value,
                                                        ip.value, userId.value)])
    ensures r.0.Err? ==> r.1 == db
  {
    match ValidateDevice(userAgent, acceptLanguage, ip, userId)
    case Err(m) => (Err(m), db)
    case Ok(_, device) =>
      var o := CreateDeviceInfo(db, NewDevice(device.userAgent, device.acceptLanguage, device.ip, device.userId));
      match o.result
      case Failure(_) => (Err(CreateError), o.state)
      case Success(_) => (Ok(Created, DeviceData(device.userAgent, device.acceptLanguage, device.ip)), o.state)
  }

  /** A device is written only with an address `validate_ip` accepts. */
  lemma WrittenDeviceHasValidIp(db: Db, userAgent: Option<string>, acceptLanguage: Option<string>, ip: Option<string>,
                                userId: Option<int>)
    requires CreateDevice(db, userAgent, acceptLanguage, ip, userId).1 != db
    ensures ip.Some? && DeviceSchema.ValidateIp(ip.value).Success?
    ensures var after := CreateDevice(db, userAgent, acceptLanguage, ip, userId).1;
      |after.devices| == |db.devices| + 1 && after.devices[|db.devices|].ip == ip.value
  {
  }
}
