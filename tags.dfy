/** The closed set of MUI palette names a chip or an icon is coloured with. */
module Tags {

  datatype Severity = Primary | Info | Success | Warning | Error | Default
}
