/** Telemetry data the ingestion service keeps for one drone. */
module Models {
  /** What a decoded message may change. Angles, speeds and distances are real numbers; clocks are integer milliseconds. */
  datatype Readings = Readings(
    armed: bool, flightMode: string, fixType: nat,
    lat: real, lon: real, altRelativeM: real, groundSpeedMs: real, headingDeg: real,
    rollDeg: real, pitchDeg: real, batteryPct: int, voltageMv: nat)

  const INITIAL_READINGS := Readings(false, "STABILIZE", 3, 0.0, 0.0, 0.0, 0.0, 0.0, 0.0, 0.0, 100, 0)

  datatype Payload = Payload(
    deviceId: string, sysId: nat, vpnIp: string, connected: bool,
    lastHeartbeat: int, timestamp: int, readings: Readings)

  /** A received message: how it changes the readings, and whether it is one the decoder knows. */
  datatype Message = Message(decode: Readings -> Readings, known: bool)
}
