/** The fixed table of enriched-event fields and their kinds (`FieldTypes`,
    `ENRICHED_EVENT_FIELD_TYPES`). Field names outside it are dynamic `contexts_*` and
    `unstruct_*` columns. */
module FieldRegistry {

  datatype FieldType =
    | PropertyBoolean
    | PropertyInt32
    | PropertyDouble
    | PropertyDateTime
    | PropertyString
    | PropertySqlArray
    | PropertySqlMap

  /** The kinds whose values the extractor casts and writes directly. */
  predicate IsScalar(k: FieldType) {
    !(k.PropertySqlArray? || k.PropertySqlMap?)
  }

  const EnrichedEventFieldTypes: map<string, FieldType> :=
    map[
      "app_id" := PropertyString,
      "platform" := PropertyString,
      "etl_tstamp" := PropertyDateTime,
      "collector_tstamp" := PropertyDateTime,
      "dvce_created_tstamp" := PropertyDateTime,
      "event" := PropertyString,
      "event_id" := PropertyString,
      "txn_id" := PropertyInt32,
      "name_tracker" := PropertyString,
      "v_tracker" := PropertyString,
      "v_collector" := PropertyString,
      "v_etl" := PropertyString,
      "user_id" := PropertyString,
      "user_ipaddress" := PropertyString,
      "user_fingerprint" := PropertyString,
      "domain_userid" := PropertyString,
      "domain_sessionidx" := PropertyInt32,
      "network_userid" := PropertyString,
      "geo_country" := PropertyString,
      "geo_region" := PropertyString,
      "geo_city" := PropertyString,
      "geo_zipcode" := PropertyString,
      "geo_location" := PropertyString,
      "geo_latitude" := PropertyDouble,
      "geo_longitude" := PropertyDouble,
      "geo_region_name" := PropertyString,
      "ip_isp" := PropertyString,
      "ip_organization" := PropertyString,
      "ip_domain" := PropertyString,
      "ip_netspeed" := PropertyString,
      "page_url" := PropertyString,
      "page_title" := PropertyString,
      "page_referrer" := PropertyString,
      "page_urlscheme" := PropertyString,
      "page_urlhost" := PropertyString,
      "page_urlport" := PropertyInt32,
      "page_urlpath" := PropertyString,
      "page_urlquery" := PropertyString,
      "page_urlfragment" := PropertyString,
      "refr_urlscheme" := PropertyString,
      "refr_urlhost" := PropertyString,
      "refr_urlport" := PropertyInt32,
      "refr_urlpath" := PropertyString,
      "refr_urlquery" := PropertyString,
      "refr_urlfragment" := PropertyString,
      "refr_medium" := PropertyString,
      "refr_source" := PropertyString,
      "refr_term" := PropertyString,
      "mkt_medium" := PropertyString,
      "mkt_source" := PropertyString,
      "mkt_term" := PropertyString,
      "mkt_content" := PropertyString,
      "mkt_campaign" := PropertyString,
      "contexts" := PropertySqlArray,
      "se_category" := PropertyString,
      "se_action" := PropertyString,
      "se_label" := PropertyString,
      "se_property" := PropertyString,
      "se_value" := PropertyString,
      "unstruct_event" := PropertySqlMap,
      "tr_orderid" := PropertyString,
      "tr_affiliation" := PropertyString,
      "tr_total" := PropertyDouble,
      "tr_tax" := PropertyDouble,
      "tr_shipping" := PropertyDouble,
      "tr_city" := PropertyString,
      "tr_state" := PropertyString,
      "tr_country" := PropertyString,
      "ti_orderid" := PropertyString,
      "ti_sku" := PropertyString,
      "ti_name" := PropertyString,
      "ti_category" := PropertyString,
      "ti_price" := PropertyDouble,
      "ti_quantity" := PropertyInt32,
      "pp_xoffset_min" := PropertyInt32,
      "pp_xoffset_max" := PropertyInt32,
      "pp_yoffset_min" := PropertyInt32,
      "pp_yoffset_max" := PropertyInt32,
      "useragent" := PropertyString,
      "br_name" := PropertyString,
      "br_family" := PropertyString,
      "br_version" := PropertyString,
      "br_type" := PropertyString,
      "br_renderengine" := PropertyString,
      "br_lang" := PropertyString,
      "br_features_pdf" := PropertyBoolean,
      "br_features_flash" := PropertyBoolean,
      "br_features_java" := PropertyBoolean,
      "br_features_director" := PropertyBoolean,
      "br_features_quicktime" := PropertyBoolean,
      "br_features_realplayer" := PropertyBoolean,
      "br_features_windowsmedia" := PropertyBoolean,
      "br_features_gears" := PropertyBoolean,
      "br_features_silverlight" := PropertyBoolean,
      "br_cookies" := PropertyBoolean,
      "br_colordepth" := PropertyString,
      "br_viewwidth" := PropertyInt32,
      "br_viewheight" := PropertyInt32,
      "os_name" := PropertyString,
      "os_family" := PropertyString,
      "os_manufacturer" := PropertyString,
      "os_timezone" := PropertyString,
      "dvce_type" := PropertyString,
      "dvce_ismobile" := PropertyBoolean,
      "dvce_screenwidth" := PropertyInt32,
      "dvce_screenheight" := PropertyInt32,
      "doc_charset" := PropertyString,
      "doc_width" := PropertyInt32,
      "doc_height" := PropertyInt32,
      "tr_currency" := PropertyString,
      "tr_total_base" := PropertyDouble,
      "tr_tax_base" := PropertyDouble,
      "tr_shipping_base" := PropertyDouble,
      "ti_currency" := PropertyString,
      "ti_price_base" := PropertyDouble,
      "base_currency" := PropertyString,
      "geo_timezone" := PropertyString,
      "mkt_clickid" := PropertyString,
      "mkt_network" := PropertyString,
      "etl_tags" := PropertyString,
      "dvce_sent_tstamp" := PropertyDateTime,
      "refr_domain_userid" := PropertyString,
      "refr_device_tstamp" := PropertyDateTime,
      "derived_contexts" := PropertySqlArray,
      "domain_sessionid" := PropertyString,
      "derived_tstamp" := PropertyDateTime,
      "event_vendor" := PropertyString,
      "event_name" := PropertyString,
      "event_format" := PropertyString,
      "event_version" := PropertyString,
      "event_fingerprint" := PropertyString,
      "true_tstamp" := PropertyDateTime
    ]
}
