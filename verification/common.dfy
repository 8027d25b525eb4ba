module Common {
  datatype Option<+T> = None | Some(value: T) {
    function GetOr(default: T): T { if Some? then value else default }
  }

  type Byte = b: int | 0 <= b < 256
  type Bytes = seq<Byte>
}
