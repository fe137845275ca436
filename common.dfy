/** Values shared by every part of the converter: JavaScript's `undefined`/`null`
    as an Option, and the exceptions the script can raise as a Result. */
module Common {

  /** `None` stands for JavaScript's `undefined` (a missing array element) or `null`. */
  datatype Option<+T> = None | Some(value: T)

  /** The ways the conversion can throw once the lookups have succeeded. */
  datatype Error =
    | HostSchemeMissing     // the host option has no "://", so `undefined.split` throws
    | SchemaVersionMissing  // an event version has no schema version, so `null.content` throws
    | SchemaUnusable        // the schema content does not parse, or no body can be generated from it

  datatype Result<+T> = Ok(value: T) | Err(error: Error)
}
