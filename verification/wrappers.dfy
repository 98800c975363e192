/** Optional values, standing in for the `undefined`/`null`-able values of the
    plugin's TypeScript (an absent heading list, an absent file label, a target
    line that does not exist). */
module Wrappers {

  datatype Option<+T> = None | Some(value: T)
}
