/**
 * `systemd_notify` and `write_watchdog_heartbeat` of utils/helpers.py: the
 * sd_notify(3) datagram protocol. The environment variables are inputs and the
 * datagram that would be sent is the output; socket errors are swallowed by the
 * source and not modelled.
 */
module Systemd {
  import opened Wrappers

  /** A datagram sent on an `AF_UNIX`/`SOCK_DGRAM` socket connected to `address`. */
  datatype Datagram = Datagram(address: string, message: string)

  const WatchdogMessage: string := "WATCHDOG=1"

  /**
   * Socket address for a `NOTIFY_SOCKET` value: a leading `@` names a socket in
   * Linux's abstract namespace (unix(7)), whose address starts with a NUL byte
   * instead; any other path is used as is. Unset or empty: nothing is sent.
   */
  function NotifyAddress(notifySocket: Option<string>): (r: Option<string>)
    ensures r.None? <==> notifySocket.None? || notifySocket.value == []
    ensures r.Some? ==> |r.value| == |notifySocket.value| && r.value[1..] == notifySocket.value[1..]
    ensures r.Some? ==> r.value[0] == (if notifySocket.value[0] == '@' then '\0' else notifySocket.value[0])
  {
    match notifySocket
    case None => None
    case Some(path) =>
      if path == [] then None
      else if path[0] == '@' then Some(['\0'] + path[1..])
      else Some(path)
  }

  /** Reading an address back as a `NOTIFY_SOCKET` value (`@` for the abstract namespace). */
  function DisplayAddress(address: string): string
  {
    if address != [] && address[0] == '\0' then ['@'] + address[1..] else address
  }

  /**
   * The rewrite loses nothing: an environment value (which can never contain a
   * NUL byte) is recovered from the address it is rewritten to.
   */
  lemma NotifyAddressRoundTrip(path: string)
    requires path != [] && '\0' !in path
    ensures NotifyAddress(Some(path)).Some?
    ensures DisplayAddress(NotifyAddress(Some(path)).value) == path
  {
    var a := NotifyAddress(Some(path)).value;
    if path[0] == '@' {
      assert ['@'] + a[1..] == path;
    } else {
      assert path[0] in path;
    }
  }

  /** `systemd_notify(message)`: the datagram sent, if any. */
  function Notify(notifySocket: Option<string>, message: string): (r: Option<Datagram>)
    ensures r.Some? <==> NotifyAddress(notifySocket).Some?
    ensures r.Some? ==> r.value == Datagram(NotifyAddress(notifySocket).value, message)
  {
    match NotifyAddress(notifySocket)
    case None => None
    case Some(address) => Some(Datagram(address, message))
  }

  /**
   * `write_watchdog_heartbeat`: a `WATCHDOG=1` datagram exactly when
   * `WATCHDOG_USEC` is set (even to an empty string) and a socket is configured.
   */
  function WatchdogHeartbeat(watchdogUsec: Option<string>, notifySocket: Option<string>): (r: Option<Datagram>)
    ensures watchdogUsec.None? ==> r.None?
    ensures r.Some? <==> watchdogUsec.Some? && notifySocket.Some? && notifySocket.value != []
    ensures r.Some? ==> r.value.message == WatchdogMessage
  {
    if watchdogUsec.None? then None else Notify(notifySocket, WatchdogMessage)
  }

  /** The abstract-socket case of the shipped tests: `@/run/systemd/notify` connects to `\0/run/systemd/notify`. */
  lemma AbstractSocketExample()
    ensures Notify(Some("@/run/systemd/notify"), WatchdogMessage) == Some(Datagram("\0/run/systemd/notify", "WATCHDOG=1"))
  {
    var p := "@/run/systemd/notify";
    assert ['\0'] + p[1..] == "\0/run/systemd/notify";
  }
}
