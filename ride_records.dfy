/**
 * The ride-request payloads the booking endpoint stores and the availability
 * endpoint reads back, and the JSON mapper that converts them.
 */
module Rides {
  import opened Wrappers
  import opened JavaText

  /** A booking as the rider submits it. */
  datatype RideRequest = RideRequest(
    riderId: string,
    pickupLat: real,
    pickupLng: real,
    dropLat: real,
    dropLng: real,
    pickupName: string,
    dropName: string)

  /** The record of a booking kept in the cell's request set, serialised as JSON. */
  datatype RideRequestRecord = RideRequestRecord(
    riderId: string,
    pickupLat: real,
    pickupLng: real,
    dropLat: real,
    dropLng: real,
    distanceKm: real,
    basePrice: real,
    surgeMultiplier: real,
    finalPrice: real,
    geofenceId: string,
    resolution: Int32,
    pickupName: string,
    dropName: string,
    createdAt: int)

  /** Reading a payload into a record; `None` where the JSON reader throws. */
  type RecordReader = string -> Option<RideRequestRecord>

  /** Writing a record as a payload; `None` where the JSON writer throws. */
  type RecordWriter = RideRequestRecord -> Option<string>
}
