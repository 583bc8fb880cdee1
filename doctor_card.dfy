/** The consultation badges a doctor card shows, derived from the record's two flags. */
module DoctorCard {
  import opened Types
  import opened DoctorList

  const VideoBadge := "Video Consult"
  const ClinicBadge := "In Clinic"

  /**
   * The `consultationTypes` list: "Video Consult" when the record offers video
   * consultations, then "In Clinic" when it offers clinic visits. Any two
   * entries are those two badges in that order, so neither appears twice.
   */
  method ConsultationBadges(d: Doctor) returns (types: seq<string>)
    ensures VideoBadge in types <==> d.videoConsult
    ensures ClinicBadge in types <==> d.inClinic
    ensures forall t :: t in types ==> t == VideoBadge || t == ClinicBadge
    ensures forall i, j :: 0 <= i < j < |types| ==> types[i] == VideoBadge && types[j] == ClinicBadge
    ensures |types| <= 2
  {
    types := [];
    if d.videoConsult {
      types := types + [VideoBadge];
    }
    if d.inClinic {
      types := types + [ClinicBadge];
    }
  }

  /** A record kept by a known consultation mode has that mode's flag, so its card shows that badge. */
  lemma ModeFilterShowsBadge(s: seq<Doctor>, p: SearchParams, d: Doctor)
    requires d in Filtered(s, p)
    ensures p.consultationType == Some(VideoBadge) ==> d.videoConsult
    ensures p.consultationType == Some(ClinicBadge) ==> d.inClinic
  {
    KnownModesTestTheirFlag(s, p, d);
  }
}
