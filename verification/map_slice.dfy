/** The map view state: access token, style URL and camera location. */
module MapSlice {
  import opened Wrappers

  datatype Location = Location(lat: real, lng: real, zoom: real)
  datatype MapState = MapState(accessToken: string, mapStyle: string, location: Location)

  const DefaultStyle: string := "mapbox://styles/mapbox/streets-v12"

  /** The initial state. The access token comes from the build environment
      (`VITE_APP_MAPBOX_ACCESS_TOKEN || ''`), given here as `envToken`. */
  function Initial(envToken: Option<string>): (s: MapState)
    ensures s.mapStyle == DefaultStyle
    ensures s.location == Location(13.0287, -78.8184, 2.0)
    ensures envToken.Some? ==> s.accessToken == envToken.value
    ensures envToken.None? ==> s.accessToken == ""
  {
    MapState(envToken.GetOr(""), DefaultStyle, Location(13.0287, -78.8184, 2.0))
  }

  /** `setLocation`: position from the payload; zoom from the payload when given (`??`
      falls back only on a missing value, so a zoom of 0 is taken), else the previous zoom. */
  function SetLocation(s: MapState, lat: real, lng: real, zoom: Option<real>): (r: MapState)
    ensures r.location.lat == lat && r.location.lng == lng
    ensures zoom.None? ==> r.location.zoom == s.location.zoom
    ensures zoom.Some? ==> r.location.zoom == zoom.value
    ensures r.accessToken == s.accessToken && r.mapStyle == s.mapStyle
  {
    s.(location := Location(lat, lng, zoom.GetOr(s.location.zoom)))
  }

  /** `setMapStyle`: only the style changes. */
  function SetMapStyle(s: MapState, style: string): (r: MapState)
    ensures r.mapStyle == style
    ensures r.accessToken == s.accessToken && r.location == s.location
  {
    s.(mapStyle := style)
  }

  /** A zoom of 0 is a real zoom: it is not replaced by the previous one. */
  lemma ZeroZoomIsKept(s: MapState, lat: real, lng: real)
    ensures SetLocation(s, lat, lng, Some(0.0)).location.zoom == 0.0
  {
  }

  /** Moving without a zoom after moving with one keeps that zoom; the later position wins. */
  lemma SetLocationComposes(s: MapState, lat1: real, lng1: real, z: real, lat2: real, lng2: real)
    ensures SetLocation(SetLocation(s, lat1, lng1, Some(z)), lat2, lng2, None)
      == SetLocation(s, lat2, lng2, Some(z))
  {
  }
}
