/**
 * The resource records the configuration holds. Their definitions are not
 * part of this model: each is an opaque record that exposes the key it is
 * filed under through `mapKey()`.
 */
module Types {

  datatype Server = Server(mapKey: string, definition: string)

  datatype Command = Command(mapKey: string, definition: string)

  datatype Executable = Executable(mapKey: string, definition: string)

  datatype Monitor = Monitor(mapKey: string, definition: string)

  function ServerKey(s: Server): string {
    s.mapKey
  }

  function CommandKey(c: Command): string {
    c.mapKey
  }
}
