/**
  Both loaders are modelled two ways. `AsWritten` follows the code as it stands,
  including its defects; `Intended` follows what the code evidently means, and the
  loaders' main operations use it. Each defect is stated as a lemma about
  `AsWritten`, next to the property the `Intended` reading has instead.
 */
module Readings {

  /**
    OBJ loader: as written a blank line is fatal, the component loops run one step
    short (`1..3` for three components, `1..2` for two), the vertex lookup uses the
    loop counter and `Model::new` parses its path. Texture loader: as written each
    header field is one byte and the mip level never advances.
   */
  datatype Reading = AsWritten | Intended
}
