/** GLib signal connections, as far as the plugin sees them. */
module GSignal {
  /** A signal handler id (gulong): zero means no handler is connected. */
  type HandlerId = nat
}
