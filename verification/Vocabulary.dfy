/**
 Names that several models share. Addresses, ids and topics are strings; nothing is assumed about their form.
 */
module Vocabulary {

  type Ip = string
  type DeviceId = string
  type Sensor = string
  type Topic = string

  datatype Option<T> = None | Some(value: T)
}
